/** Whole runs of the encoder pipeline: the safety results in every reachable state, and what holds
    when `run_loop` returns. */
module EncoderShutdown {
  import opened Common
  import opened EncoderPipeline
  import opened EncoderSafety

  // ----- The order in which the threads stop

  ghost predicate LastDispatch(m: Media) {
    match m
    case Closing => true
    case Splicing(last) => last
    case Draining(last) => last
    case Returning(last, _) => last
    case Clearing => true
    case Done => true
    case _ => false
  }

  ghost predicate StopOrder(s: State) {
    && |s.threads| > 0
    && (s.main != Running && s.main != Joining ==> forall t | 0 < t < |s.threads| :: s.threads[t].Exited?)
    && (s.main in {Joining, Stopping, JoiningMedia, Returned} ==> s.threads[0].Idle?)
    && (s.stop <==> s.main == JoiningMedia || s.main == Returned)
    && (s.main == Returned ==> s.media == Done)
    && (!s.fault && LastDispatch(s.media) ==> s.stop)
    && (!s.fault && LastDispatch(s.media) && s.media != Closing && s.media != Splicing(true) ==> s.core.pending == [])
    && (!s.fault && s.media == Done ==> s.core.pool == [])
  }

  lemma StopOrderProducer(c: Config, s: State, t: nat, p: ProducerStep)
    requires Phases(s) && ProducerEnabled(c, s, t, p) && StopOrder(s)
    ensures StopOrder(ApplyProducer(c, s, t, p))
  {
    match p
    case GetHit(_, _) => case GetMiss(_, _) => case Allocate => case AllocateThrows => case DropHandle =>
    case Push(_) => case Notify => case Exit =>
  }

  lemma StopOrderMedia(c: Config, s: State, d: MediaStep)
    requires Phases(s) && MediaEnabled(s, d) && StopOrder(s)
    ensures StopOrder(ApplyMedia(c, s, d))
  {
    match d
    case OpenEvent => case InitThrows => case FillOne => case FillThrows => case FillDone =>
    case Wake => case ReadEvent =>
    case Splice => case Receive => case ReceiveAgain => case ReceiveThrows => case Mux => case MuxThrows =>
    case DrainDone => case ReturnOne => case ReturnDone =>
    case LeaveLoop => case PollThrows => case CloseEvent => case Clear =>
  }

  lemma StopOrderMain(c: Config, s: State, m: MainStep)
    requires Phases(s) && MainEnabled(c, s, m) && StopOrder(s)
    ensures StopOrder(ApplyMain(c, s, m))
  {
    match m
    case JoinProducers => case FlushThrows => case RequestStop => case JoinMedia =>
  }

  lemma StopOrderKept(c: Config, s: State, step: Step)
    requires Phases(s) && Enabled(c, s, step) && StopOrder(s)
    ensures StopOrder(Apply(c, s, step))
  {
    var s' := Apply(c, s, step);
    match step
    case OfProducer(t, p) => assert s' == ApplyProducer(c, s, t, p); StopOrderProducer(c, s, t, p);
    case OfMain(m) => assert s' == ApplyMain(c, s, m); StopOrderMain(c, s, m);
    case OfMedia(d) => assert s' == ApplyMedia(c, s, d); StopOrderMedia(c, s, d);
  }

  // ----- The two flush entries are the last ones pushed

  ghost predicate EndsWithFlush(es: seq<Entry>, codec: nat) {
    es != [] && var e := es[|es| - 1]; e.flush && e.codec == codec
  }

  /** The queue's history ends with the flush of the video codec, then that of the audio codec. */
  ghost predicate EndsWithBothFlushes(c: Config, es: seq<Entry>) {
    EndsWithFlush(es, c.audio) && EndsWithFlush(es[..|es| - 1], c.video)
  }

  ghost predicate FlushOrder(c: Config, s: State) {
    && |s.threads| > 0
    && var w := s.threads[0];
    match s.main
    case Running => true
    case Joining => true
    case FlushVideo =>
      && (w.Missed? ==> w.flush && w.codec == c.video)
      && (w.Holding? ==> w.entry.flush && w.entry.codec == c.video)
      && (w.Notifying? ==> EndsWithFlush(s.pushed, c.video))
    case FlushAudio =>
      && (w.Missed? ==> w.flush && w.codec == c.audio)
      && (w.Holding? ==> w.entry.flush && w.entry.codec == c.audio)
      && if w.Notifying? then EndsWithBothFlushes(c, s.pushed) else EndsWithFlush(s.pushed, c.video)
    case _ => s.fault || EndsWithBothFlushes(c, s.pushed)
  }

  lemma FlushOrderProducer(c: Config, s: State, t: nat, p: ProducerStep)
    requires Phases(s) && ProducerEnabled(c, s, t, p) && StopOrder(s) && FlushOrder(c, s)
    ensures FlushOrder(c, ApplyProducer(c, s, t, p))
  {
    match p
    case Push(_) => if t == 0 { assert ApplyProducer(c, s, t, p).pushed[..|s.pushed|] == s.pushed; }
    case GetHit(_, _) => case GetMiss(_, _) => case Allocate => case AllocateThrows => case DropHandle =>
    case Notify => case Exit =>
  }

  lemma FlushOrderMedia(c: Config, s: State, d: MediaStep)
    requires MediaEnabled(s, d) && FlushOrder(c, s)
    ensures FlushOrder(c, ApplyMedia(c, s, d))
  {
    match d
    case OpenEvent => case InitThrows => case FillOne => case FillThrows => case FillDone =>
    case Wake => case ReadEvent =>
    case Splice => case Receive => case ReceiveAgain => case ReceiveThrows => case Mux => case MuxThrows =>
    case DrainDone => case ReturnOne => case ReturnDone =>
    case LeaveLoop => case PollThrows => case CloseEvent => case Clear =>
  }

  lemma FlushOrderMain(c: Config, s: State, m: MainStep)
    requires Phases(s) && MainEnabled(c, s, m) && StopOrder(s) && FlushOrder(c, s)
    ensures FlushOrder(c, ApplyMain(c, s, m))
  {
    match m
    case JoinProducers => case FlushThrows => case RequestStop => case JoinMedia =>
  }

  lemma FlushOrderKept(c: Config, s: State, step: Step)
    requires Phases(s) && Enabled(c, s, step) && StopOrder(s) && FlushOrder(c, s)
    ensures FlushOrder(c, Apply(c, s, step))
  {
    match step
    case OfProducer(t, p) => FlushOrderProducer(c, s, t, p);
    case OfMain(m) => FlushOrderMain(c, s, m);
    case OfMedia(d) => FlushOrderMedia(c, s, d);
  }

  // ----- Every reachable state

  ghost predicate Inv(c: Config, s: State) {
    && Phases(s) && Wired(c, s)
    && NoStranded(s) && NoLostWakeup(s) && InOrder(s) && PacketLedger(c, s)
    && Ownership(s) && Conserved(s)
    && StopOrder(s) && FlushOrder(c, s)
  }

  lemma StepKeepsInv(c: Config, s: State, step: Step)
    requires Inv(c, s) && Enabled(c, s, step)
    ensures Inv(c, Apply(c, s, step))
  {
    PhasesKept(c, s, step);
    WiredKept(c, s, step);
    NoStrandedKept(c, s, step);
    NoLostWakeupKept(c, s, step);
    InOrderKept(c, s, step);
    PacketLedgerKept(c, s, step);
    OwnershipKept(c, s, step);
    ConservedKept(c, s, step);
    StopOrderKept(c, s, step);
    FlushOrderKept(c, s, step);
  }

  lemma {:induction false} NoHandles(threads: seq<Producer>, x: nat)
    requires forall t | 0 <= t < |threads| :: !threads[t].Holding?
    ensures InHands(threads, x) == 0 && HandleCount(threads) == 0
  {
    if threads != [] { NoHandles(threads[1..], x); }
  }

  lemma InitInv(c: Config, producers: nat)
    requires ValidConfig(c)
    ensures Inv(c, Init(c, producers))
  {
    var s := Init(c, producers);
    forall x: nat ensures Places(s, x) == 0 { NoHandles(s.threads, x); }
    NoHandles(s.threads, 0);
  }

  lemma {:induction false} RunKeepsInv(c: Config, s: State, steps: seq<Step>, s': State)
    requires Inv(c, s) && Run(c, s, steps, s')
    ensures Inv(c, s')
    decreases |steps|
  {
    if steps != [] {
      StepKeepsInv(c, s, steps[0]);
      RunKeepsInv(c, Apply(c, s, steps[0]), steps[1..], s');
    }
  }

  lemma ReachableInv(c: Config, s: State)
    requires ValidConfig(c) && Reachable(c, s)
    ensures Inv(c, s)
  {
    var producers: nat, steps :| Run(c, Init(c, producers), steps, s);
    InitInv(c, producers);
    RunKeepsInv(c, Init(c, producers), steps, s);
  }

  // ----- Main results

  /** No stranded packets. */
  lemma PacketsAreNamed(c: Config, s: State)
    requires ValidConfig(c) && Reachable(c, s) && !s.fault
    ensures forall k | 0 <= k < |s.core.out| && s.core.out[k] != [] ::
              exists e :: e in s.core.pending + s.todo && e.codec == k
    ensures s.core.pending == [] && s.todo == [] ==> forall k | 0 <= k < |s.core.out| :: s.core.out[k] == []
  {
    ReachableInv(c, s);
    forall k | 0 <= k < |s.core.out| && s.core.out[k] != []
      ensures exists e :: e in s.core.pending + s.todo && e.codec == k
    {
      if Names(s.core.pending, k) {
        var i :| 0 <= i < |s.core.pending| && s.core.pending[i].codec == k;
        assert s.core.pending[i] in s.core.pending + s.todo;
      } else {
        var i :| 0 <= i < |s.todo| && s.todo[i].codec == k;
        assert s.todo[i] in s.core.pending + s.todo;
      }
    }
  }

  /** No lost wake-up: while an entry pushed after the eventfd was opened is queued, a wake-up is due. */
  lemma WakeupIsDue(c: Config, s: State)
    requires ValidConfig(c) && Reachable(c, s)
    requires s.open && |s.core.pending| > s.stale
    ensures || s.core.counter > 0
            || (exists t :: 0 <= t < |s.threads| && s.threads[t] == Notifying(true))
            || s.media == Splicing(false)
  {
    ReachableInv(c, s);
  }

  /** Item ownership, also while a dispatch unwinds: each created item is in exactly one place. */
  lemma OneOwner(c: Config, s: State)
    requires ValidConfig(c) && Reachable(c, s)
    ensures forall x: nat :: Places(s, x) == if x < s.core.created then 1 else 0
    ensures |s.core.pool| + HandleCount(s.threads) + |s.core.pending| + |s.drained + s.todo|
         == s.core.created - |s.core.destroyed|
  {
    ReachableInv(c, s);
  }

  /** FIFO delivery: entries finish in push order, and each stream's packets in codec order. */
  lemma FifoDelivery(c: Config, s: State)
    requires ValidConfig(c) && Reachable(c, s) && !s.fault
    ensures s.completed <= s.pushed
    ensures |s.produced| == |c.streams|
    ensures forall k | 0 <= k < |c.streams| :: OfStream(s.core.muxed, c.streams[k]) <= s.produced[k]
  {
    ReachableInv(c, s);
    forall k | 0 <= k < |c.streams| ensures OfStream(s.core.muxed, c.streams[k]) <= s.produced[k] {
      assert CodecLedger(c, s, k);
    }
  }

  /** Clean shutdown: what `run_loop` leaves behind when neither a dispatch nor a flush threw. */
  lemma CleanShutdown(c: Config, s: State)
    requires ValidConfig(c) && Reachable(c, s)
    requires s.main == Returned && !s.fault
    ensures s.completed == s.pushed && EndsWithBothFlushes(c, s.completed)
    ensures s.core.pending == [] && s.drained + s.todo == []
    ensures |s.core.out| == |s.produced| == |c.streams|
    ensures forall k | 0 <= k < |c.streams| ::
              s.core.out[k] == [] && OfStream(s.core.muxed, c.streams[k]) == s.produced[k]
    ensures forall x: nat :: multiset(s.core.destroyed)[x] == if x < s.core.created then 1 else 0
  {
    ReachableInv(c, s);
    forall k | 0 <= k < |c.streams|
      ensures s.core.out[k] == [] && OfStream(s.core.muxed, c.streams[k]) == s.produced[k]
    {
      assert CodecLedger(c, s, k);
    }
    forall x: nat ensures multiset(s.core.destroyed)[x] == if x < s.core.created then 1 else 0 {
      NoHandles(s.threads, x);
      assert Places(s, x) == if x < s.core.created then 1 else 0;
    }
  }

  /** Whatever threw: an item that outlives `run_loop` is in the pool or still queued. */
  lemma LeakedItems(c: Config, s: State, x: nat)
    requires ValidConfig(c) && Reachable(c, s) && s.main == Returned
    requires x < s.core.created && x !in s.core.destroyed
    ensures x in s.core.pool || exists e :: e in s.core.pending && e.item == x
  {
    ReachableInv(c, s);
    NoHandles(s.threads, x);
    assert Places(s, x) == 1;
    if x !in s.core.pool {
      var e := FindItem(s.core.pending, x);
    }
  }

  lemma {:induction false} FindItem(es: seq<Entry>, x: nat) returns (e: Entry)
    requires InList(es, x) > 0
    ensures e in es && e.item == x
  {
    if es[0].item == x { e := es[0]; } else { e := FindItem(es[1..], x); }
  }

  // ----- The shutdown finishes

  ghost function Queued(out: seq<seq<Packet>>): nat {
    if out == [] then 0 else |out[0]| + Queued(out[1..])
  }

  ghost function MediaRank(c: Config, m: Media): nat {
    match m
    case Done => 0
    case Clearing => 1
    case Returning(last, _) => if last then 2 else 7
    case Draining(last) => if last then 3 else 8
    case Splicing(last) => if last then 4 else 9
    case Closing => 5
    case Reading => 5
    case Polling => 6
    case Filling(left) => 7 + left
    case Starting => 8 + c.initialPool
  }

  /** An upper bound on the steps left once the media thread has been told to stop. */
  ghost function StepsLeft(c: Config, s: State): nat {
    MediaRank(c, s.media) + (if s.core.counter > 0 then 6 else 0)
    + 2 * Queued(s.core.out) + (if s.packet.Some? then 1 else 0)
    + 2 * |s.core.pending| + 2 * |s.todo| + |s.drained|
    + (if s.main == Returned then 0 else 1)
  }

  lemma {:induction false} QueuedPop(out: seq<seq<Packet>>, k: nat)
    requires k < |out| && out[k] != []
    ensures Queued(out[k := out[k][1..]]) == Queued(out) - 1
  {
    if k == 0 {
      assert out[0 := out[0][1..]][1..] == out[1..];
    } else {
      assert out[k := out[k][1..]][1..] == out[1..][k - 1 := out[1..][k - 1][1..]];
      QueuedPop(out[1..], k - 1);
    }
  }

  lemma DrainStepCounts(c: Config, s: State, d: MediaStep)
    requires Phases(s) && NoLostWakeup(s) && MediaEnabled(s, d) && s.media.Draining?
    ensures StepsLeft(c, ApplyMedia(c, s, d)) < StepsLeft(c, s)
  {
    if d.Receive? {
      QueuedPop(s.core.out, s.todo[0].codec);
    } else {
      assert ApplyMedia(c, s, d).core.out == s.core.out;
    }
  }

  lemma DispatchStepCounts(c: Config, s: State, d: MediaStep)
    requires Phases(s) && NoLostWakeup(s) && MediaEnabled(s, d)
    requires s.media.Reading? || s.media.Splicing? || s.media.Returning?
    ensures StepsLeft(c, ApplyMedia(c, s, d)) < StepsLeft(c, s)
  {
    assert ApplyMedia(c, s, d).core.out == s.core.out;
  }

  lemma MediaStepCounts(c: Config, s: State, d: MediaStep)
    requires Phases(s) && NoLostWakeup(s) && MediaEnabled(s, d)
    ensures StepsLeft(c, ApplyMedia(c, s, d)) < StepsLeft(c, s)
  {
    if s.media.Draining? {
      DrainStepCounts(c, s, d);
    } else if s.media.Reading? || s.media.Splicing? || s.media.Returning? {
      DispatchStepCounts(c, s, d);
    } else {
      assert ApplyMedia(c, s, d).core.out == s.core.out;
    }
  }

  lemma OnlyMediaRuns(c: Config, s: State, step: Step)
    requires Inv(c, s) && s.main in {JoiningMedia, Returned} && Enabled(c, s, step)
    ensures step.OfMedia? || step == OfMain(JoinMedia)
  {
  }

  /** Until the media thread is done, its next step is never blocked. */
  ghost function NextMedia(s: State): (d: MediaStep)
    requires Phases(s) && s.stop && s.media != Done
    ensures MediaEnabled(s, d)
  {
    match s.media
    case Starting => OpenEvent
    case Filling(left) => if left > 0 then FillOne else FillDone
    case Polling => LeaveLoop
    case Reading => ReadEvent
    case Splicing(_) => Splice
    case Draining(_) =>
      if s.packet.Some? then Mux
      else if s.todo == [] then DrainDone
      else if HasPacket(s.core, s.todo[0].codec) then Receive
      else ReceiveAgain
    case Returning(_, _) => if s.drained == [] && s.todo == [] then ReturnDone else ReturnOne
    case Closing => CloseEvent
    case Clearing => Clear
  }

  lemma StepCounts(c: Config, s: State, step: Step)
    requires Inv(c, s) && s.main in {JoiningMedia, Returned} && Enabled(c, s, step)
    ensures var s' := Apply(c, s, step);
            Inv(c, s') && s'.main in {JoiningMedia, Returned} && StepsLeft(c, s') < StepsLeft(c, s)
  {
    OnlyMediaRuns(c, s, step);
    StepKeepsInv(c, s, step);
    if step.OfMedia? { MediaStepCounts(c, s, step.d); }
  }

  lemma {:induction false} StepsAreBounded(c: Config, s: State, steps: seq<Step>, s': State)
    requires Inv(c, s) && s.main in {JoiningMedia, Returned}
    requires Run(c, s, steps, s')
    ensures |steps| <= StepsLeft(c, s)
    ensures Inv(c, s') && s'.main in {JoiningMedia, Returned}
    decreases |steps|
  {
    if steps != [] {
      StepCounts(c, s, steps[0]);
      StepsAreBounded(c, Apply(c, s, steps[0]), steps[1..], s');
    }
  }

  /** Shutdown always finishes: once the media thread is told to stop, no run is longer than
      `StepsLeft`, and none gets stuck before `run_loop` returns. */
  lemma ShutdownFinishes(c: Config, s: State, steps: seq<Step>, s': State)
    requires ValidConfig(c) && Reachable(c, s) && s.main == JoiningMedia
    requires Run(c, s, steps, s')
    ensures |steps| <= StepsLeft(c, s)
    ensures s'.main == Returned || exists step :: Enabled(c, s', step)
  {
    ReachableInv(c, s);
    StepsAreBounded(c, s, steps, s');
    if s'.main != Returned {
      assert Enabled(c, s', if s'.media == Done then OfMain(JoinMedia) else OfMedia(NextMedia(s')));
    }
  }
}
