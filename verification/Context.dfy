/** `Context::run`: services are bracketed by init and uninit around the event loop. */
module Context {
  import opened Common
  import opened Timers

  datatype Timespec = Timespec(sec: nat, nsec: nat)

  const NS_PER_SEC: nat := 1_000_000_000

  /** `from_nanoseconds` */
  function FromNanoseconds(val: nat): (r: Timespec)
    ensures r.nsec < 1_000_000_000 && r.sec * 1_000_000_000 + r.nsec == val
  {
    Timespec(val / NS_PER_SEC, val % NS_PER_SEC)
  }

  lemma {:induction false} AfterAllAppend(ts: seq<Timer>, elapsed: seq<nat>, e: nat)
    ensures AfterAll(ts, elapsed + [e]) == TickedAll(AfterAll(ts, elapsed), e)
    decreases |elapsed|
  {
    if elapsed == [] {
      assert [e][1..] == [];
    } else {
      assert (elapsed + [e])[1..] == elapsed[1..] + [e];
      AfterAllAppend(TickedAll(ts, elapsed[0]), elapsed[1..], e);
    }
  }

  /** `timeouts[i]` is what the loop sleeps for after its `i`-th reading of the clock. */
  ghost predicate SleepsAsDue(ts: seq<Timer>, elapsed: seq<nat>, limit: nat, timeouts: seq<nat>) {
    && |timeouts| == |elapsed|
    && forall i {:trigger timeouts[i]} :: 0 <= i < |timeouts| ==>
         IsNextTimeout(AfterAll(ts, elapsed[..i + 1]), limit, timeouts[i])
  }

  // ----- The event loop

  /** The file descriptors that services registered, and the loop's own eventfd. */
  datatype Registry = Registry(notifications: map<nat, nat>, eventFd: nat)

  /** The dispatch calls for the descriptors a poll reports, in order: the loop's own is only read,
      and one nobody registered is passed over. */
  function Notifies(reg: Registry, ready: seq<nat>): seq<Call> {
    if ready == [] then []
    else
      var fd := ready[|ready| - 1];
      Notifies(reg, ready[..|ready| - 1])
      + if fd != reg.eventFd && fd in reg.notifications then [Notified(fd, reg.notifications[fd])] else []
  }

  /** How many calls in `log` are for the descriptor `fd`. */
  ghost function CallsFor(log: seq<Call>, fd: nat): nat {
    if log == [] then 0
    else
      var last := log[|log| - 1];
      CallsFor(log[..|log| - 1], fd) + if last.Notified? && last.fd == fd then 1 else 0
  }

  predicate Registered(reg: Registry, fd: nat) {
    fd != reg.eventFd && fd in reg.notifications
  }

  lemma LastCount(ready: seq<nat>, fd: nat)
    requires ready != []
    ensures var n := |ready| - 1;
            multiset(ready)[fd] == multiset(ready[..n])[fd] + if ready[n] == fd then 1 else 0
  {
    assert ready == ready[..|ready| - 1] + [ready[|ready| - 1]];
  }

  lemma LastCall(calls: seq<Call>, call: Call, fd: nat)
    ensures CallsFor(calls + [call], fd) == CallsFor(calls, fd) + if call.Notified? && call.fd == fd then 1 else 0
  {
    assert (calls + [call])[..|calls|] == calls;
  }

  /** A registered descriptor is dispatched as often as it is reported; others never. */
  lemma {:induction false} NotifiedOnceEach(reg: Registry, ready: seq<nat>, fd: nat)
    ensures CallsFor(Notifies(reg, ready), fd) == if Registered(reg, fd) then multiset(ready)[fd] else 0
    decreases |ready|
  {
    if ready != [] {
      var n := |ready| - 1;
      NotifiedOnceEach(reg, ready[..n], fd);
      LastCount(ready, fd);
      if Registered(reg, ready[n]) {
        LastCall(Notifies(reg, ready[..n]), Notified(ready[n], reg.notifications[ready[n]]), fd);
      } else {
        assert Notifies(reg, ready) == Notifies(reg, ready[..n]);
      }
    }
  }

  /** Each such call is one to the service that registered the descriptor. */
  lemma {:induction false} NotifiesOwnService(reg: Registry, ready: seq<nat>, call: Call)
    requires call in Notifies(reg, ready)
    ensures call.Notified? && Registered(reg, call.fd) && call.service == reg.notifications[call.fd]
    decreases |ready|
  {
    if call in Notifies(reg, ready[..|ready| - 1]) { NotifiesOwnService(reg, ready[..|ready| - 1], call); }
  }

  /** The calls come in the order of the reports. */
  lemma {:induction false} NotifiesInOrder(reg: Registry, a: seq<nat>, b: seq<nat>)
    ensures Notifies(reg, a + b) == Notifies(reg, a) + Notifies(reg, b)
    decreases |b|
  {
    if b == [] {
      assert a + b == a;
    } else {
      var n := |b| - 1;
      assert (a + b)[..|a + b| - 1] == a + b[..n];
      NotifiesInOrder(reg, a, b[..n]);
    }
  }

  method HandleReady(reg: Registry, ready: seq<nat>) returns (calls: seq<Call>)
    ensures calls == Notifies(reg, ready)
    ensures forall fd: nat :: CallsFor(calls, fd) == if Registered(reg, fd) then multiset(ready)[fd] else 0
  {
    calls := [];
    for n := 0 to |ready|
      invariant calls == Notifies(reg, ready[..n])
    {
      var fd := ready[n];
      assert ready[..n + 1][..n] == ready[..n];
      if fd == reg.eventFd { continue; }
      if fd in reg.notifications { calls := calls + [Notified(fd, reg.notifications[fd])]; }
    }
    assert ready[..|ready|] == ready;
    forall fd: nat ensures CallsFor(calls, fd) == if Registered(reg, fd) then multiset(ready)[fd] else 0 {
      NotifiedOnceEach(reg, ready, fd);
    }
  }

  /** All dispatch calls of the loop: turn `n` reads `elapsed[n]` off the clock, and its poll reports
      the descriptors `ready[n]`. */
  ghost function LoopLog(reg: Registry, ts: seq<Timer>, elapsed: seq<nat>, ready: seq<seq<nat>>): seq<Call>
    requires |ready| == |elapsed|
    decreases |elapsed|
  {
    if elapsed == [] then []
    else
      var n := |elapsed| - 1;
      LoopLog(reg, ts, elapsed[..n], ready[..n])
      + Dispatches(AfterAll(ts, elapsed[..n]), elapsed[n]) + Notifies(reg, ready[n])
  }

  /** One turn: the timers tick, and what the poll reports is handled. */
  method Turn(timers: array<Timer>, limit: nat, reg: Registry, reading: nat, ready: seq<nat>)
    returns (next: nat, dispatched: seq<Call>, notified: seq<Call>)
    modifies timers
    ensures timers[..] == TickedAll(old(timers[..]), reading) && IsNextTimeout(timers[..], limit, next)
    ensures dispatched == Dispatches(old(timers[..]), reading) && notified == Notifies(reg, ready)
  {
    var threw;
    next, dispatched, threw := TickTimers(timers, reading, limit, None);
    notified := HandleReady(reg, ready);
  }

  /** The event loop, until it is told to stop. */
  method EventLoop(timers: array<Timer>, limit: nat, reg: Registry, elapsed: seq<nat>, ready: seq<seq<nat>>)
    returns (timeouts: seq<nat>, calls: seq<Call>)
    requires |ready| == |elapsed|
    modifies timers
    ensures timers[..] == AfterAll(old(timers[..]), elapsed)
    ensures SleepsAsDue(old(timers[..]), elapsed, limit, timeouts)
    ensures calls == LoopLog(reg, old(timers[..]), elapsed, ready)
    ensures forall i | 0 <= i < timers.Length :: CallsTo(calls, i) == Dispatched(old(timers[i]), elapsed)
  {
    timeouts, calls := [], [];
    ghost var ts := timers[..];
    for n := 0 to |elapsed|
      invariant timers[..] == AfterAll(ts, elapsed[..n]) && |timeouts| == n
      invariant calls == LoopLog(reg, ts, elapsed[..n], ready[..n])
      invariant forall i {:trigger timeouts[i]} :: 0 <= i < n ==>
                  IsNextTimeout(AfterAll(ts, elapsed[..i + 1]), limit, timeouts[i])
    {
      LoopTurn(reg, ts, elapsed, ready, n);
      var next, dispatched, notified := Turn(timers, limit, reg, elapsed[n], ready[n]);
      timeouts, calls := timeouts + [next], calls + dispatched + notified;
    }
    assert elapsed[..|elapsed|] == elapsed && ready[..|ready|] == ready;
    forall i | 0 <= i < timers.Length ensures CallsTo(calls, i) == Dispatched(old(timers[i]), elapsed) {
      LoopCalls(reg, ts, elapsed, ready, i);
    }
  }

  lemma LoopTurn(reg: Registry, ts: seq<Timer>, elapsed: seq<nat>, ready: seq<seq<nat>>, n: nat)
    requires n < |ready| == |elapsed|
    ensures AfterAll(ts, elapsed[..n + 1]) == TickedAll(AfterAll(ts, elapsed[..n]), elapsed[n])
    ensures LoopLog(reg, ts, elapsed[..n + 1], ready[..n + 1])
         == LoopLog(reg, ts, elapsed[..n], ready[..n])
            + Dispatches(AfterAll(ts, elapsed[..n]), elapsed[n]) + Notifies(reg, ready[n])
  {
    AfterAllAppend(ts, elapsed[..n], elapsed[n]);
    assert elapsed[..n] + [elapsed[n]] == elapsed[..n + 1];
    assert elapsed[..n + 1][..n] == elapsed[..n] && ready[..n + 1][..n] == ready[..n];
  }

  lemma {:induction false} NotifiesNoTimer(reg: Registry, ready: seq<nat>, slot: nat)
    ensures CallsTo(Notifies(reg, ready), slot) == 0
    decreases |ready|
  {
    if ready != [] {
      var n := |ready| - 1;
      NotifiesNoTimer(reg, ready[..n], slot);
      var last := if ready[n] != reg.eventFd && ready[n] in reg.notifications
                  then [Notified(ready[n], reg.notifications[ready[n]])] else [];
      CallsAppend(Notifies(reg, ready[..n]), last, slot);
    }
  }

  /** The loop's dispatch calls for a timer are those that the scheduling results count. */
  lemma {:induction false} LoopCalls(reg: Registry, ts: seq<Timer>, elapsed: seq<nat>, ready: seq<seq<nat>>, slot: nat)
    requires |ready| == |elapsed| && slot < |ts|
    ensures CallsTo(LoopLog(reg, ts, elapsed, ready), slot) == Dispatched(ts[slot], elapsed)
    decreases |elapsed|
  {
    if elapsed != [] {
      var n := |elapsed| - 1;
      var before, log := AfterAll(ts, elapsed[..n]), LoopLog(reg, ts, elapsed[..n], ready[..n]);
      LoopCalls(reg, ts, elapsed[..n], ready[..n], slot);
      TimersAreIndependent(ts, elapsed[..n], slot);
      CallsOfTick(before, elapsed[n], slot);
      NotifiesNoTimer(reg, ready[n], slot);
      CallsAppend(log, Dispatches(before, elapsed[n]), slot);
      CallsAppend(log + Dispatches(before, elapsed[n]), Notifies(reg, ready[n]), slot);
      DispatchedAppend(ts[slot], elapsed[..n], elapsed[n]);
      assert elapsed[..n] + [elapsed[n]] == elapsed;
    }
  }

  /** How the loop ends. A turn that throws reads the clock once more; either the dispatch for timer
      `slot` throws, or the poll does after `ready` was handled: with `ready` empty the poll itself,
      else the dispatch for the last descriptor in it. */
  datatype Ending = Stopped | Throws(reading: nat, slot: Option<nat>, ready: seq<nat>)

  ghost function TimersAtEnd(ts: seq<Timer>, ending: Ending): seq<Timer> {
    if ending.Stopped? then ts
    else TickedSome(ts, Reached(ts, ending.reading, ending.slot), ending.reading)
  }

  ghost function CallsAtEnd(reg: Registry, ts: seq<Timer>, ending: Ending): seq<Call> {
    if ending.Stopped? then []
    else
      var n := Reached(ts, ending.reading, ending.slot);
      Dispatches(ts[..n], ending.reading)
      + if ending.slot.Some? && ending.slot.value < |ts| && Fires(ts[ending.slot.value], ending.reading) then []
        else Notifies(reg, ending.ready)
  }

  /** The turn that throws. */
  method LastTurn(timers: array<Timer>, limit: nat, reg: Registry, ending: Ending) returns (calls: seq<Call>)
    requires ending.Throws?
    modifies timers
    ensures timers[..] == TimersAtEnd(old(timers[..]), ending)
    ensures calls == CallsAtEnd(reg, old(timers[..]), ending)
  {
    var _, dispatched, threw := TickTimers(timers, ending.reading, limit, ending.slot);
    calls := dispatched;
    if !threw {
      var notified := HandleReady(reg, ending.ready);
      calls := calls + notified;
    }
  }

  /** If a timer's dispatch throws, no descriptor is looked at in that turn; else those reported up to
      the one that throws are. */
  lemma CallsAtThrow(reg: Registry, ts: seq<Timer>, ending: Ending)
    requires ending.Throws?
    ensures var e, slot := ending.reading, ending.slot;
            if slot.Some? && slot.value < |ts| && e >= ts[slot.value].remaining
            then CallsAtEnd(reg, ts, ending) == Dispatches(ts[..slot.value + 1], e)
            else CallsAtEnd(reg, ts, ending) == Dispatches(ts, e) + Notifies(reg, ending.ready)
  {
    assert ts[..|ts|] == ts;
  }

  /** A turn that throws dispatches each timer at most once, as one that does not. */
  lemma CallsOfLastTurn(reg: Registry, ts: seq<Timer>, ending: Ending, slot: nat)
    requires ending.Throws? && slot < |ts|
    ensures CallsTo(CallsAtEnd(reg, ts, ending), slot)
         == if slot < Reached(ts, ending.reading, ending.slot) && Fires(ts[slot], ending.reading) then 1 else 0
  {
    var n := Reached(ts, ending.reading, ending.slot);
    CallsOfTick(ts[..n], ending.reading, slot);
    NotifiesNoTimer(reg, ending.ready, slot);
    CallsAppend(Dispatches(ts[..n], ending.reading), [], slot);
    CallsAppend(Dispatches(ts[..n], ending.reading), Notifies(reg, ending.ready), slot);
  }

  /** Waking within `jitter` of each sleep's end is what `OnTime` asks for. */
  lemma {:induction false} PunctualWakeups(
      ts: seq<Timer>, elapsed: seq<nat>, limit: nat, timeouts: seq<nat>, due: nat, jitter: nat)
    requires SleepsAsDue(ts, elapsed, limit, timeouts)
    requires elapsed != [] ==> elapsed[0] <= due + jitter
    requires forall i {:trigger timeouts[i]} :: 0 <= i < |elapsed| - 1 ==> elapsed[i + 1] <= timeouts[i] + jitter
    ensures OnTime(ts, elapsed, due, limit, jitter)
    decreases |elapsed|
  {
    if elapsed != [] {
      var ts', rest := TickedAll(ts, elapsed[0]), timeouts[1..];
      assert elapsed[..1] == [] + [elapsed[0]];
      AfterAllAppend(ts, [], elapsed[0]);
      assert IsNextTimeout(AfterAll(ts, elapsed[..0 + 1]), limit, timeouts[0]);
      forall i | 0 <= i < |rest| ensures IsNextTimeout(AfterAll(ts', elapsed[1..][..i + 1]), limit, rest[i]) {
        assert elapsed[..i + 2][1..] == elapsed[1..][..i + 1];
        assert rest[i] == timeouts[i + 1];
      }
      forall i | 0 <= i < |elapsed[1..]| - 1 ensures elapsed[1..][i + 1] <= rest[i] + jitter {
        assert rest[i] == timeouts[i + 1];
      }
      PunctualWakeups(ts', elapsed[1..], limit, rest, timeouts[0], jitter);
    }
  }

  /** A loop that always wakes within `jitter` of its timeout dispatches each timer once per period. */
  lemma PunctualLoopIsDriftFree(ts: seq<Timer>, elapsed: seq<nat>, limit: nat, timeouts: seq<nat>, jitter: nat, i: nat)
    requires SleepsAsDue(ts, elapsed, limit, timeouts)
    requires elapsed != [] ==> elapsed[0] <= jitter
    requires forall n {:trigger timeouts[n]} :: 0 <= n < |elapsed| - 1 ==> elapsed[n + 1] <= timeouts[n] + jitter
    requires forall j :: 0 <= j < |ts| ==> ts[j].remaining == 0 && ts[j].period > 0 && jitter <= ts[j].period
    requires i < |ts|
    ensures |AfterAll(ts, elapsed)| == |ts|
    ensures Dispatched(ts[i], elapsed)
         == Total(elapsed) / ts[i].period + if AfterAll(ts, elapsed)[i].remaining > 0 then 1 else 0
  {
    PunctualWakeups(ts, elapsed, limit, timeouts, 0, jitter);
    DriftFree(ts, elapsed, limit, jitter, i);
  }

  datatype Event = Init(service: nat) | Uninit(service: nat)

  function Inits(n: nat): seq<Event> {
    seq(n, (i: nat) => Init(i))
  }

  function Uninits(n: nat): seq<Event> {
    seq(n, (i: nat) => Uninit(i))
  }

  /** `added` is the init of services `0` to `n - 1` in order, then their uninit in the same order. */
  ghost predicate Brackets(added: seq<Event>, n: nat) {
    && |added| == 2 * n
    && forall k | 0 <= k < n :: added[k] == Init(k) && added[n + k] == Uninit(k)
  }

  lemma {:induction false} OnceAt(added: seq<Event>, e: Event, m: nat)
    requires m < |added| && added[m] == e && forall k | 0 <= k < |added| && k != m :: added[k] != e
    ensures multiset(added)[e] == 1
    decreases |added|
  {
    var last := |added| - 1;
    assert added == added[..last] + [added[last]];
    if m < last { OnceAt(added[..last], e, m); }
  }

  /** Each of the first `n` services is initialised once and uninitialised once, and no other ever. */
  lemma EachOnce(added: seq<Event>, n: nat, k: nat)
    requires Brackets(added, n)
    ensures multiset(added)[Init(k)] == if k < n then 1 else 0
    ensures multiset(added)[Uninit(k)] == if k < n then 1 else 0
  {
    assert forall m | 0 <= m < n :: added[m] == Init(m);
    forall m | n <= m < 2 * n ensures added[m] == Uninit(m - n) { assert added[n + (m - n)] == Uninit(m - n); }
    if k < n {
      OnceAt(added, Init(k), k);
      OnceAt(added, Uninit(k), n + k);
    }
  }

  class Context {
    var stopRequested: bool
    var log: seq<Event>      // completed inits, and uninits

    constructor ()
      ensures !stopRequested && log == []
    {
      stopRequested, log := false, [];
    }

    method RequestStop()
      modifies this
      ensures stopRequested && log == old(log)
    {
      stopRequested := true;
    }

    /** Uninitialises services `0` to `n - 1`, in the order they were initialised. */
    method UninitFirst(n: nat)
      modifies this`log
      ensures log == old(log) + Uninits(n)
    {
      for i := 0 to n
        invariant log == old(log) + Uninits(i)
      {
        log := log + [Uninit(i)];
      }
    }

    /** `failing` is the service whose init throws, if any; otherwise the services have registered
        `reg` and the timers, and the loop makes the turns `elapsed` and `ready` until it is told to
        stop, or one more that throws. Nothing registered means no loop, and a stop request stays. */
    method Run(services: nat, failing: Option<nat>, reg: Registry, timers: array<Timer>, limit: nat,
               elapsed: seq<nat>, ready: seq<seq<nat>>, ending: Ending)
      returns (calls: seq<Call>, threw: bool)
      requires failing.Some? ==> failing.value < services
      requires |ready| == |elapsed|
      modifies this, timers
      ensures var started := if failing.Some? then failing.value else services;
              && old(log) <= log && Brackets(log[|old(log)|..], started)
              && (forall k: nat :: multiset(log[|old(log)|..])[Init(k)] == if k < started then 1 else 0)
              && (forall k: nat :: multiset(log[|old(log)|..])[Uninit(k)] == if k < started then 1 else 0)
      ensures var ts, loops := old(timers[..]), failing.None? && |reg.notifications| + timers.Length > 0;
              && (stopRequested <==> old(stopRequested) && !loops)
              && (threw <==> failing.Some? || (loops && !old(stopRequested) && ending.Throws?))
              && if loops && !old(stopRequested) then
                   && timers[..] == TimersAtEnd(AfterAll(ts, elapsed), ending)
                   && calls == LoopLog(reg, ts, elapsed, ready) + CallsAtEnd(reg, AfterAll(ts, elapsed), ending)
                 else timers[..] == ts && calls == []
    {
      calls := [];
      for i := 0 to services
        invariant log == old(log) + Inits(i) && stopRequested == old(stopRequested) && timers[..] == old(timers[..])
        invariant failing.Some? ==> i <= failing.value
      {
        if failing == Some(i) {
          UninitFirst(i);
          Bracketed(old(log), i);
          return [], true;
        }
        log := log + [Init(i)];
      }
      threw := false;
      if |reg.notifications| + timers.Length > 0 {
        calls, threw := Loop(reg, timers, limit, elapsed, ready, ending);
      }
      UninitFirst(services);
      Bracketed(old(log), services);
    }

    lemma Bracketed(before: seq<Event>, n: nat)
      requires log == before + Inits(n) + Uninits(n)
      ensures before <= log && Brackets(log[|before|..], n)
      ensures forall k: nat :: multiset(log[|before|..])[Init(k)] == if k < n then 1 else 0
      ensures forall k: nat :: multiset(log[|before|..])[Uninit(k)] == if k < n then 1 else 0
    {
      var added := log[|before|..];
      assert added == Inits(n) + Uninits(n);
      forall k: nat
        ensures multiset(added)[Init(k)] == (if k < n then 1 else 0)
        ensures multiset(added)[Uninit(k)] == if k < n then 1 else 0
      {
        EachOnce(added, n, k);
      }
    }

    method Loop(reg: Registry, timers: array<Timer>, limit: nat,
                elapsed: seq<nat>, ready: seq<seq<nat>>, ending: Ending)
      returns (calls: seq<Call>, threw: bool)
      requires |ready| == |elapsed|
      modifies this`stopRequested, timers
      ensures !stopRequested && (threw <==> !old(stopRequested) && ending.Throws?)
      ensures var ts := old(timers[..]);
              if old(stopRequested) then timers[..] == ts && calls == []
              else
                && timers[..] == TimersAtEnd(AfterAll(ts, elapsed), ending)
                && calls == LoopLog(reg, ts, elapsed, ready) + CallsAtEnd(reg, AfterAll(ts, elapsed), ending)
    {
      calls, threw := [], false;
      if !stopRequested {
        var _, turns := EventLoop(timers, limit, reg, elapsed, ready);
        calls := turns;
        threw := ending.Throws?;
        if threw {
          var rest := LastTurn(timers, limit, reg, ending);
          calls := calls + rest;
        }
      }
      if !threw { stopRequested := false; }
    }
  }
}
