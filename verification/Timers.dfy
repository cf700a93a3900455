/** The event loop's periodic timers: `tick_timers` and the registration of timers. */
module Timers {
  import opened Common
  import opened Search

  /** `FrameTickReadiness`: the service to dispatch, its period and the time left to its next tick. */
  datatype Timer = Timer(service: nat, period: nat, remaining: nat)

  function Min(a: nat, b: nat): nat {
    if a <= b then a else b
  }

  predicate Fires(t: Timer, elapsed: nat) {
    elapsed >= t.remaining
  }

  /** `t` after `elapsed` nanoseconds: an overshoot is taken off the next period, up to all of it. */
  function Ticked(t: Timer, elapsed: nat): Timer {
    if Fires(t, elapsed) then t.(remaining := t.period - Min(elapsed - t.remaining, t.period))
    else t.(remaining := t.remaining - elapsed)
  }

  function TickedAll(ts: seq<Timer>, elapsed: nat): seq<Timer> {
    seq(|ts|, i requires 0 <= i < |ts| => Ticked(ts[i], elapsed))
  }

  /** A dispatch call: for the timer at `slot`, or for the file descriptor `fd`. */
  datatype Call = Timed(slot: nat, service: nat) | Notified(fd: nat, service: nat)

  /** The dispatch calls for the timers that fire, in order. */
  function Dispatches(ts: seq<Timer>, elapsed: nat): seq<Call> {
    if ts == [] then []
    else
      var i := |ts| - 1;
      Dispatches(ts[..i], elapsed) + if Fires(ts[i], elapsed) then [Timed(i, ts[i].service)] else []
  }

  /** `next` is the least of `limit` and all remaining times. */
  ghost predicate IsNextTimeout(ts: seq<Timer>, limit: nat, next: nat) {
    && next <= limit && (forall i :: 0 <= i < |ts| ==> next <= ts[i].remaining)
    && (next == limit || exists i :: 0 <= i < |ts| && next == ts[i].remaining)
  }

  /** The timers after a `tick_timers` that got through the first `n` of them. */
  function TickedSome(ts: seq<Timer>, n: nat, elapsed: nat): seq<Timer>
    requires n <= |ts|
  {
    TickedAll(ts[..n], elapsed) + ts[n..]
  }

  /** How many timers `tick_timers` gets through if the dispatch for slot `failing` throws. */
  function Reached(ts: seq<Timer>, elapsed: nat, failing: Option<nat>): (n: nat)
    ensures n <= |ts|
  {
    if failing.Some? && failing.value < |ts| && Fires(ts[failing.value], elapsed) then failing.value + 1 else |ts|
  }

  /** What the loop of `tick_timers` has done to the first `n` of the timers `ts`. */
  ghost predicate TickedUpTo(
      now: seq<Timer>, ts: seq<Timer>, n: nat, elapsed: nat, limit: nat, next: nat, calls: seq<Call>)
  {
    && n <= |ts| && now == TickedSome(ts, n, elapsed) && calls == Dispatches(ts[..n], elapsed)
    && next == Least(ts[..n], elapsed, limit)
  }

  /** The least of `limit` and the rests of `ts` once they have ticked. */
  function Least(ts: seq<Timer>, elapsed: nat, limit: nat): nat {
    if ts == [] then limit
    else Min(Least(ts[..|ts| - 1], elapsed, limit), Ticked(ts[|ts| - 1], elapsed).remaining)
  }

  lemma {:induction false} LeastIsNext(ts: seq<Timer>, elapsed: nat, limit: nat)
    ensures IsNextTimeout(TickedAll(ts, elapsed), limit, Least(ts, elapsed, limit))
    decreases |ts|
  {
    if ts != [] {
      var n := |ts| - 1;
      LeastIsNext(ts[..n], elapsed, limit);
      TickExtends(ts, n, elapsed);
      assert ts[..n + 1] == ts;
      NextTimeoutExtends(TickedAll(ts[..n], elapsed), Ticked(ts[n], elapsed), limit, Least(ts[..n], elapsed, limit));
    }
  }

  lemma OneMoreTicked(now: seq<Timer>, ts: seq<Timer>, n: nat, elapsed: nat, limit: nat, next: nat, calls: seq<Call>)
    requires n < |ts| && TickedUpTo(now, ts, n, elapsed, limit, next, calls)
    ensures |now| == |ts| && now[n] == ts[n]
    ensures var t := Ticked(ts[n], elapsed);
            TickedUpTo(now[n := t], ts, n + 1, elapsed, limit, Min(next, t.remaining),
                       if Fires(ts[n], elapsed) then calls + [Timed(n, ts[n].service)] else calls)
  {
    TickExtends(ts, n, elapsed);
    assert ts[..n + 1][..n] == ts[..n];
    assert calls + [] == calls;
  }

  lemma NoneTicked(ts: seq<Timer>, elapsed: nat, limit: nat)
    ensures TickedUpTo(ts, ts, 0, elapsed, limit, limit, [])
  {
  }

  lemma AllTicked(now: seq<Timer>, ts: seq<Timer>, elapsed: nat, limit: nat, next: nat, calls: seq<Call>)
    requires TickedUpTo(now, ts, |ts|, elapsed, limit, next, calls)
    ensures now == TickedAll(ts, elapsed) && calls == Dispatches(ts, elapsed) && IsNextTimeout(now, limit, next)
  {
    TickedEnd(ts, elapsed);
    LeastIsNext(ts, elapsed, limit);
  }

  /** The loop of `tick_timers`; `dispatched` records the dispatch calls, and `n` how far it came. */
  method TickLoop(timers: array<Timer>, elapsed: nat, limit: nat, failing: Option<nat>)
    returns (next: nat, dispatched: seq<Call>, threw: bool, ghost n: nat)
    modifies timers
    ensures n == Reached(old(timers[..]), elapsed, failing) && n <= timers.Length
    ensures timers[..] == TickedSome(old(timers[..]), n, elapsed)
    ensures dispatched == Dispatches(old(timers[..])[..n], elapsed)
    ensures threw <==> failing.Some? && failing.value < timers.Length && Fires(old(timers[failing.value]), elapsed)
    ensures !threw ==> n == timers.Length && next == Least(old(timers[..])[..n], elapsed, limit)
  {
    next, dispatched, threw := limit, [], false;
    ghost var ts := timers[..];
    NoneTicked(ts, elapsed, limit);
    for i := 0 to timers.Length
      invariant TickedUpTo(timers[..], ts, i, elapsed, limit, next, dispatched)
      invariant failing.Some? && failing.value < i ==> !Fires(ts[failing.value], elapsed)
    {
      OneMoreTicked(timers[..], ts, i, elapsed, limit, next, dispatched);
      var fired := TickSlot(timers, i, elapsed);
      if fired {
        dispatched := dispatched + [Timed(i, timers[i].service)];
        if failing == Some(i) { return next, dispatched, true, i + 1; }
      }
      next := Min(next, timers[i].remaining);
    }
    n := timers.Length;
  }

  /** A call for a timer that is due, to the timer's own service. */
  ghost predicate DueCall(ts: seq<Timer>, elapsed: nat, call: Call) {
    call.Timed? && call.slot < |ts| && call.service == ts[call.slot].service && elapsed >= ts[call.slot].remaining
  }

  lemma {:induction false} CallsAreDue(ts: seq<Timer>, n: nat, elapsed: nat)
    requires n <= |ts|
    ensures forall call | call in Dispatches(ts[..n], elapsed) :: DueCall(ts, elapsed, call)
  {
    if n > 0 {
      CallsAreDue(ts, n - 1, elapsed);
      assert ts[..n][..n - 1] == ts[..n - 1] && ts[..n][n - 1] == ts[n - 1];
    }
  }

  /** `tick_timers`. The dispatch for slot `failing` throws, if it is made: that timer has ticked by
      then, and those after it have not. */
  method TickTimers(timers: array<Timer>, elapsed: nat, limit: nat, failing: Option<nat>)
    returns (next: nat, dispatched: seq<Call>, threw: bool)
    modifies timers
    ensures var ts := old(timers[..]);
            && timers[..] == TickedSome(ts, Reached(ts, elapsed, failing), elapsed)
            && dispatched == Dispatches(ts[..Reached(ts, elapsed, failing)], elapsed)
            && (threw <==> failing.Some? && failing.value < |ts| && elapsed >= ts[failing.value].remaining)
            && (!threw ==> timers[..] == TickedAll(ts, elapsed) && dispatched == Dispatches(ts, elapsed))
            && (forall call | call in dispatched :: DueCall(ts, elapsed, call))
            && (threw ==>
                  var n := failing.value + 1;
                  timers[..] == TickedAll(ts[..n], elapsed) + ts[n..] && dispatched == Dispatches(ts[..n], elapsed))
    ensures !threw ==> IsNextTimeout(timers[..], limit, next)
  {
    ghost var ts := timers[..];
    ghost var n;
    next, dispatched, threw, n := TickLoop(timers, elapsed, limit, failing);
    CallsAreDue(ts, n, elapsed);
    if !threw { AllTicked(timers[..], ts, elapsed, limit, next, dispatched); }
  }

  lemma TickedEnd(ts: seq<Timer>, elapsed: nat)
    ensures ts[..|ts|] == ts && TickedSome(ts, |ts|, elapsed) == TickedAll(ts, elapsed)
  {
  }

  /** One turn of the loop of `tick_timers`. */
  method TickSlot(timers: array<Timer>, i: nat, elapsed: nat) returns (fired: bool)
    requires i < timers.Length
    modifies timers
    ensures timers[..] == old(timers[..])[i := Ticked(old(timers[i]), elapsed)]
    ensures fired == Fires(old(timers[i]), elapsed)
  {
    var t := timers[i];
    fired := elapsed >= t.remaining;
    if fired {
      timers[i] := t.(remaining := t.period - Min(elapsed - t.remaining, t.period));
    } else {
      timers[i] := t.(remaining := t.remaining - elapsed);
    }
  }

  lemma TickExtends(ts: seq<Timer>, i: nat, elapsed: nat)
    requires i < |ts|
    ensures TickedAll(ts[..i + 1], elapsed) == TickedAll(ts[..i], elapsed) + [Ticked(ts[i], elapsed)]
    ensures TickedSome(ts, i + 1, elapsed) == TickedSome(ts, i, elapsed)[i := Ticked(ts[i], elapsed)]
    ensures Dispatches(ts[..i + 1], elapsed)
         == Dispatches(ts[..i], elapsed) + if Fires(ts[i], elapsed) then [Timed(i, ts[i].service)] else []
  {
    assert ts[..i + 1][..i] == ts[..i];
  }

  lemma NextTimeoutExtends(ts: seq<Timer>, t: Timer, limit: nat, next: nat)
    requires IsNextTimeout(ts, limit, next)
    ensures IsNextTimeout(ts + [t], limit, Min(next, t.remaining))
  {
    var ts' := ts + [t];
    assert ts'[|ts|] == t;
    if next < limit && next <= t.remaining {
      var i :| 0 <= i < |ts| && next == ts[i].remaining;
      assert ts'[i] == ts[i];
    }
  }

  // ----- One timer over any sequence of wake-ups

  ghost function Total(elapsed: seq<nat>): nat {
    if elapsed == [] then 0 else elapsed[0] + Total(elapsed[1..])
  }

  ghost function After(t: Timer, elapsed: seq<nat>): Timer
    decreases |elapsed|
  {
    if elapsed == [] then t else After(Ticked(t, elapsed[0]), elapsed[1..])
  }

  /** How often the timer is dispatched. */
  ghost function Dispatched(t: Timer, elapsed: seq<nat>): nat
    decreases |elapsed|
  {
    if elapsed == [] then 0
    else (if Fires(t, elapsed[0]) then 1 else 0) + Dispatched(Ticked(t, elapsed[0]), elapsed[1..])
  }

  /** By how much one wake-up overshoots by more than a period. */
  ghost function Overrun(t: Timer, elapsed: nat): nat {
    if Fires(t, elapsed) && elapsed - t.remaining > t.period then elapsed - t.remaining - t.period else 0
  }

  ghost function Lost(t: Timer, elapsed: seq<nat>): nat
    decreases |elapsed|
  {
    if elapsed == [] then 0 else Overrun(t, elapsed[0]) + Lost(Ticked(t, elapsed[0]), elapsed[1..])
  }

  lemma OneMore(k: nat, p: nat)
    ensures (k + 1) * p == k * p + p
  {
  }

  /** One wake-up: the timer either fires, or moves closer to firing. */
  lemma TickConserves(t: Timer, elapsed: nat)
    ensures var t' := Ticked(t, elapsed);
            && elapsed + t'.remaining == t.remaining + (if Fires(t, elapsed) then t.period else 0) + Overrun(t, elapsed)
            && t'.period == t.period && t'.service == t.service
            && (t.remaining <= t.period ==> t'.remaining <= t.period)
  {
  }

  /** Time is conserved: what has passed, plus what remains, is a whole number of periods plus what
      was lost to overruns. */
  lemma {:induction false} TimeIsConserved(t: Timer, elapsed: seq<nat>)
    ensures Total(elapsed) + After(t, elapsed).remaining
         == t.remaining + Dispatched(t, elapsed) * t.period + Lost(t, elapsed)
    ensures After(t, elapsed).period == t.period && After(t, elapsed).service == t.service
    ensures t.remaining <= t.period ==> After(t, elapsed).remaining <= t.period
    decreases |elapsed|
  {
    if elapsed != [] {
      var t' := Ticked(t, elapsed[0]);
      TickConserves(t, elapsed[0]);
      TimeIsConserved(t', elapsed[1..]);
      OneMore(Dispatched(t', elapsed[1..]), t.period);
    }
  }

  lemma NonNegative(a: nat, p: nat)
    ensures a * p >= 0
  {
  }

  lemma LeastMultiple(a: nat, b: nat, p: nat)
    requires a * p < b * p + p
    ensures a <= b
  {
    assert a * p == b * p + p + (a - b - 1) * p;
    if a > b { NonNegative(a - b - 1, p); }
  }

  lemma QuotientBounds(n: nat, p: nat, q: nat)
    requires p > 0 && q * p <= n
    ensures q <= n / p
    ensures n < q * p + p ==> q == n / p
  {
    assert n == n / p * p + n % p;
    LeastMultiple(q, n / p, p);
    if n < q * p + p { LeastMultiple(n / p, q, p); }
  }

  /** A registered timer is never dispatched more often than its period allows. */
  lemma NeverTooOften(t: Timer, elapsed: seq<nat>)
    requires t.remaining == 0 && t.period > 0
    ensures Dispatched(t, elapsed) <= Total(elapsed) / t.period + 1
  {
    TimeIsConserved(t, elapsed);
    var k := Dispatched(t, elapsed);
    if k > 0 {
      OneMore(k - 1, t.period);
      QuotientBounds(Total(elapsed), t.period, k - 1);
    }
  }

  // ----- Many timers, woken by the timeout that `tick_timers` returns

  ghost function AfterAll(ts: seq<Timer>, elapsed: seq<nat>): seq<Timer>
    decreases |elapsed|
  {
    if elapsed == [] then ts else AfterAll(TickedAll(ts, elapsed[0]), elapsed[1..])
  }

  /** Each timer of the vector runs as if it were alone. */
  lemma {:induction false} TimersAreIndependent(ts: seq<Timer>, elapsed: seq<nat>, i: nat)
    requires i < |ts|
    ensures |AfterAll(ts, elapsed)| == |ts| && AfterAll(ts, elapsed)[i] == After(ts[i], elapsed)
    decreases |elapsed|
  {
    if elapsed != [] { TimersAreIndependent(TickedAll(ts, elapsed[0]), elapsed[1..], i); }
  }

  /** Every wake-up comes at most `jitter` after the timeout computed before it; the first timeout
      is `due`, later ones are what `tick_timers` returns. */
  ghost predicate OnTime(ts: seq<Timer>, elapsed: seq<nat>, due: nat, limit: nat, jitter: nat)
    decreases |elapsed|
  {
    elapsed == [] ||
    (elapsed[0] <= due + jitter
     && exists next :: IsNextTimeout(TickedAll(ts, elapsed[0]), limit, next)
                    && OnTime(TickedAll(ts, elapsed[0]), elapsed[1..], next, limit, jitter))
  }

  lemma {:induction false} NothingLost(ts: seq<Timer>, elapsed: seq<nat>, due: nat, limit: nat, jitter: nat, i: nat)
    requires i < |ts| && due <= ts[i].remaining && jitter <= ts[i].period
    requires OnTime(ts, elapsed, due, limit, jitter)
    ensures Lost(ts[i], elapsed) == 0
    decreases |elapsed|
  {
    if elapsed != [] {
      var ts' := TickedAll(ts, elapsed[0]);
      var next :| IsNextTimeout(ts', limit, next) && OnTime(ts', elapsed[1..], next, limit, jitter);
      NothingLost(ts', elapsed[1..], next, limit, jitter, i);
    }
  }

  /** Drift-free scheduling: from registration on, if no wake-up is later than the shortest period,
      every timer has fired exactly once per period, plus once at the start. */
  lemma DriftFree(ts: seq<Timer>, elapsed: seq<nat>, limit: nat, jitter: nat, i: nat)
    requires forall j :: 0 <= j < |ts| ==> ts[j].remaining == 0 && ts[j].period > 0 && jitter <= ts[j].period
    requires i < |ts| && OnTime(ts, elapsed, 0, limit, jitter)
    ensures |AfterAll(ts, elapsed)| == |ts|
    ensures var t, total := AfterAll(ts, elapsed)[i], Total(elapsed);
            var count := Dispatched(ts[i], elapsed);
            && t.remaining <= t.period == ts[i].period
            && total + t.remaining == count * ts[i].period
            && count == total / ts[i].period + if t.remaining > 0 then 1 else 0
  {
    TimersAreIndependent(ts, elapsed, i);
    NothingLost(ts, elapsed, 0, limit, jitter, i);
    TimeIsConserved(ts[i], elapsed);
    var count, p := Dispatched(ts[i], elapsed), ts[i].period;
    if After(ts[i], elapsed).remaining > 0 {
      if count > 0 {
        OneMore(count - 1, p);
        QuotientBounds(Total(elapsed), p, count - 1);
      }
    } else {
      QuotientBounds(Total(elapsed), p, count);
    }
  }

  // ----- Counting dispatch calls

  /** How many calls in `log` are for the timer at `slot`. */
  ghost function CallsTo(log: seq<Call>, slot: nat): nat {
    if log == [] then 0
    else
      var last := log[|log| - 1];
      CallsTo(log[..|log| - 1], slot) + if last.Timed? && last.slot == slot then 1 else 0
  }

  lemma {:induction false} CallsAppend(a: seq<Call>, b: seq<Call>, slot: nat)
    ensures CallsTo(a + b, slot) == CallsTo(a, slot) + CallsTo(b, slot)
    decreases |b|
  {
    if b == [] {
      assert a + b == a;
    } else {
      assert (a + b)[..|a + b| - 1] == a + b[..|b| - 1];
      CallsAppend(a, b[..|b| - 1], slot);
    }
  }

  /** One `tick_timers` calls each timer that fires once, and no other. */
  lemma {:induction false} CallsOfTick(ts: seq<Timer>, elapsed: nat, slot: nat)
    ensures CallsTo(Dispatches(ts, elapsed), slot) == if slot < |ts| && elapsed >= ts[slot].remaining then 1 else 0
    decreases |ts|
  {
    if ts != [] {
      var i := |ts| - 1;
      CallsOfTick(ts[..i], elapsed, slot);
      CallsAppend(Dispatches(ts[..i], elapsed), if Fires(ts[i], elapsed) then [Timed(i, ts[i].service)] else [], slot);
    }
  }

  /** Calls for timers, in the order of their slots, all below `n`. */
  ghost predicate InSlotOrder(calls: seq<Call>, n: nat) {
    && (forall m | 0 <= m < |calls| :: calls[m].Timed? && calls[m].slot < n)
    && (forall l, m | 0 <= l < m < |calls| :: calls[l].slot < calls[m].slot)
  }

  /** The calls of one tick come in the order of the timers. */
  lemma {:induction false} CallsInOrder(ts: seq<Timer>, elapsed: nat)
    ensures InSlotOrder(Dispatches(ts, elapsed), |ts|)
    decreases |ts|
  {
    if ts != [] {
      var i := |ts| - 1;
      CallsInOrder(ts[..i], elapsed);
      OneMoreSlot(Dispatches(ts[..i], elapsed), i, Timed(i, ts[i].service));
    }
  }

  lemma OneMoreSlot(calls: seq<Call>, n: nat, call: Call)
    requires InSlotOrder(calls, n) && call.Timed? && call.slot == n
    ensures InSlotOrder(calls + [call], n + 1) && InSlotOrder(calls + [], n + 1)
  {
    assert calls + [] == calls;
  }

  /** A timer after one tick: the rest goes down by what elapsed, and past zero up again by a period,
      but not below zero. */
  lemma TickedRemaining(t: Timer, elapsed: nat)
    ensures elapsed < t.remaining ==> Ticked(t, elapsed) == Timer(t.service, t.period, t.remaining - elapsed)
    ensures t.remaining <= elapsed <= t.remaining + t.period ==>
              Ticked(t, elapsed) == Timer(t.service, t.period, t.remaining + t.period - elapsed)
    ensures elapsed > t.remaining + t.period ==> Ticked(t, elapsed) == Timer(t.service, t.period, 0)
  {
  }

  /** A timer that is due is counted as dispatched, one that is not, is not. */
  lemma DispatchedFirst(t: Timer, elapsed: nat, rest: seq<nat>)
    ensures Dispatched(t, [elapsed] + rest)
         == (if elapsed >= t.remaining then 1 else 0) + Dispatched(Ticked(t, elapsed), rest)
  {
    assert ([elapsed] + rest)[1..] == rest;
  }

  lemma {:induction false} DispatchedAppend(t: Timer, elapsed: seq<nat>, e: nat)
    ensures Dispatched(t, elapsed + [e]) == Dispatched(t, elapsed) + if Fires(After(t, elapsed), e) then 1 else 0
    decreases |elapsed|
  {
    if elapsed == [] {
      assert [e][1..] == [] && [] + [e] == [e];
    } else {
      assert (elapsed + [e])[1..] == elapsed[1..] + [e];
      DispatchedAppend(Ticked(t, elapsed[0]), elapsed[1..], e);
    }
  }

  // ----- Registration

  ghost function Periods(ts: seq<Timer>): seq<nat> {
    seq(|ts|, i requires 0 <= i < |ts| => ts[i].period)
  }

  /** `ReadinessRegister::operator()` for a timer: due at once, in front of all with the same period. */
  method Register(timers: seq<Timer>, service: nat, period: nat) returns (timers': seq<Timer>)
    requires Sorted(Periods(timers))
    ensures exists k: nat :: IsLowerBound(Periods(timers), period, k)
              && timers' == timers[..k] + [Timer(service, period, 0)] + timers[k..]
    ensures Sorted(Periods(timers'))
  {
    var periods := seq(|timers|, i requires 0 <= i < |timers| => timers[i].period);
    var k := LowerBound(periods, period);
    timers' := timers[..k] + [Timer(service, period, 0)] + timers[k..];
    assert Periods(timers') == periods[..k] + [period] + periods[k..];
  }
}
