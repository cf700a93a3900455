/** Which runs destroy every item: `on_uninit` skips the clearing of the pool if its dispatch throws. */
module EncoderLeaks {
  import opened Common
  import opened EncoderPipeline
  import opened EncoderSafety
  import opened EncoderShutdown
  import opened EncoderDispatch

  ghost predicate AllDestroyed(s: State) {
    |s.core.destroyed| == s.core.created
  }

  // ----- Counting the destroyed items finds all of them

  lemma {:induction false} HandsHold(threads: seq<Producer>) returns (x: nat)
    requires HandleCount(threads) > 0
    ensures InHands(threads, x) > 0
  {
    if threads[0].Holding? { x := threads[0].entry.item; } else { x := HandsHold(threads[1..]); }
  }

  lemma {:induction false} HandsEmpty(threads: seq<Producer>, x: nat)
    requires HandleCount(threads) == 0
    ensures InHands(threads, x) == 0
  {
    if threads != [] { HandsEmpty(threads[1..], x); }
  }

  /** An item that is somewhere else is not destroyed. */
  lemma Elsewhere(s: State, x: nat)
    requires Ownership(s)
    requires || x in s.core.pool || InHands(s.threads, x) > 0
             || InList(s.core.pending, x) + InList(s.drained, x) + InList(s.todo, x) > 0
    ensures x < s.core.created && x !in s.core.destroyed
  {
    assert Places(s, x) == if x < s.core.created then 1 else 0;
  }

  /** `AllDestroyed` says of each single item that it was destroyed. */
  lemma AllDestroyedMeans(c: Config, s: State)
    requires Inv(c, s)
    ensures AllDestroyed(s) <==> forall x: nat | x < s.core.created :: x in s.core.destroyed
  {
    if AllDestroyed(s) {
      forall x: nat | x < s.core.created ensures x in s.core.destroyed {
        HandsEmpty(s.threads, x);
        assert Places(s, x) == 1;
      }
    } else {
      var x: nat;
      if s.core.pool != [] { x := s.core.pool[0]; }
      else if s.core.pending != [] { x := s.core.pending[0].item; }
      else if s.drained != [] { x := s.drained[0].item; }
      else if s.todo != [] { x := s.todo[0].item; }
      else { x := HandsHold(s.threads); }
      Elsewhere(s, x);
    }
  }

  // ----- Every run

  ghost predicate Creates(step: Step) {
    (step.OfProducer? && step.p.Allocate?) || step == OfMedia(FillOne)
  }

  ghost predicate CreatesNothing(steps: seq<Step>) {
    forall i | 0 <= i < |steps| :: !Creates(steps[i])
  }

  /** No item is with a client or in the queue. */
  ghost predicate NoneOut(s: State) {
    HandleCount(s.threads) == 0 && s.core.pending == []
  }

  /** The pool is cleared while no item is out, and no item is created afterwards. */
  ghost predicate ClearsAll(c: Config, s: State, steps: seq<Step>)
    decreases |steps|
  {
    && steps != [] && Enabled(c, s, steps[0])
    && ((steps[0] == OfMedia(Clear) && NoneOut(s) && CreatesNothing(steps[1..]))
        || ClearsAll(c, Apply(c, s, steps[0]), steps[1..]))
  }

  lemma CountsProducer(c: Config, s: State, t: nat, p: ProducerStep)
    requires ProducerEnabled(c, s, t, p)
    ensures var s' := ApplyProducer(c, s, t, p);
            && s'.core.created == s.core.created + (if Creates(OfProducer(t, p)) then 1 else 0)
            && s'.core.destroyed == s.core.destroyed
  {
  }

  lemma CountsMedia(c: Config, s: State, d: MediaStep)
    requires MediaEnabled(s, d)
    ensures var s' := ApplyMedia(c, s, d);
            && s'.core.created == s.core.created + (if Creates(OfMedia(d)) then 1 else 0)
            && s'.core.destroyed == if d == Clear then s.core.destroyed + s.core.pool else s.core.destroyed
  {
    match d
    case OpenEvent => case InitThrows => case FillOne => case FillThrows => case FillDone =>
    case Wake => case ReadEvent => case Splice => case Receive => case ReceiveAgain => case ReceiveThrows =>
    case Mux => case MuxThrows => case DrainDone => case ReturnOne => case ReturnDone =>
    case LeaveLoop => case PollThrows => case CloseEvent => case Clear =>
  }

  lemma CountsStep(c: Config, s: State, step: Step)
    requires Enabled(c, s, step)
    ensures var s' := Apply(c, s, step);
            && s'.core.created == s.core.created + (if Creates(step) then 1 else 0)
            && s'.core.destroyed == if step == OfMedia(Clear) then s.core.destroyed + s.core.pool else s.core.destroyed
  {
    match step
    case OfProducer(t, p) => CountsProducer(c, s, t, p);
    case OfMain(_) =>
    case OfMedia(d) => CountsMedia(c, s, d);
  }

  lemma DestroyedStep(c: Config, s: State, step: Step)
    requires Inv(c, s) && Enabled(c, s, step)
    ensures AllDestroyed(Apply(c, s, step))
       <==> (AllDestroyed(s) && !Creates(step)) || (step == OfMedia(Clear) && NoneOut(s))
  {
    CountsStep(c, s, step);
    assert Conserved(s);
    if step == OfMedia(Clear) { assert s.drained == [] && s.todo == []; }
  }

  lemma {:induction false} DestroyedOverRun(c: Config, s: State, steps: seq<Step>, s': State)
    requires Inv(c, s) && Run(c, s, steps, s')
    ensures AllDestroyed(s') <==> (AllDestroyed(s) && CreatesNothing(steps)) || ClearsAll(c, s, steps)
    decreases |steps|
  {
    if steps != [] {
      DestroyedStep(c, s, steps[0]);
      StepKeepsInv(c, s, steps[0]);
      DestroyedOverRun(c, Apply(c, s, steps[0]), steps[1..], s');
      assert CreatesNothing(steps) <==> !Creates(steps[0]) && CreatesNothing(steps[1..]) by { Split(steps); }
    }
  }

  lemma Split(steps: seq<Step>)
    requires steps != []
    ensures CreatesNothing(steps) <==> !Creates(steps[0]) && CreatesNothing(steps[1..])
  {
    assert forall i | 1 <= i < |steps| :: steps[i] == steps[1..][i - 1];
  }

  lemma {:induction false} CreatedOverRun(c: Config, s: State, steps: seq<Step>, s': State)
    requires Run(c, s, steps, s')
    ensures s'.core.created >= s.core.created
    ensures s'.core.created == s.core.created <==> CreatesNothing(steps)
    decreases |steps|
  {
    if steps != [] {
      CountsStep(c, s, steps[0]);
      Split(steps);
      CreatedOverRun(c, Apply(c, s, steps[0]), steps[1..], s');
    }
  }

  /** Exactly which runs destroy every item: those that create none, and those that clear the pool
      while all items are in it and create none afterwards. */
  lemma DestroyedExactly(c: Config, producers: nat, steps: seq<Step>, s: State)
    requires ValidConfig(c) && Run(c, Init(c, producers), steps, s)
    ensures AllDestroyed(s) <==> s.core.created == 0 || ClearsAll(c, Init(c, producers), steps)
    ensures AllDestroyed(s) <==> forall x: nat | x < s.core.created :: x in s.core.destroyed
  {
    var s0 := Init(c, producers);
    InitInv(c, producers);
    RunKeepsInv(c, s0, steps, s);
    DestroyedOverRun(c, s0, steps, s);
    CreatedOverRun(c, s0, steps, s);
    AllDestroyedMeans(c, s);
  }

  // ----- A media thread that was stopped

  /** This step ends the last dispatch by an exception. */
  ghost predicate LastThrow(s: State, step: Step) {
    (step == OfMedia(ReceiveThrows) || step == OfMedia(MuxThrows)) && s.media == Draining(true)
  }

  ghost predicate ThrowsLast(c: Config, s: State, steps: seq<Step>)
    decreases |steps|
  {
    steps != [] && Enabled(c, s, steps[0])
    && (LastThrow(s, steps[0]) || ThrowsLast(c, Apply(c, s, steps[0]), steps[1..]))
  }

  ghost predicate Unwound(m: Media) {
    m == Done || m == Returning(true, true)
  }

  /** The media thread was stopped and has left its loop. */
  ghost predicate Leaving(s: State) {
    && s.main in {JoiningMedia, Returned} && LastDispatch(s.media)
    && (s.media != Closing && s.media != Splicing(true) ==> s.core.pending == [])
  }

  lemma LeavingMedia(c: Config, s: State, d: MediaStep)
    requires Inv(c, s) && Leaving(s) && MediaEnabled(s, d)
    ensures var s' := ApplyMedia(c, s, d);
            && Leaving(s')
            && (Unwound(s.media) ==> Unwound(s'.media) && d != Clear)
            && (LastThrow(s, OfMedia(d)) ==> s'.media == Returning(true, true) && !AllDestroyed(s))
            && (!Unwound(s.media) && !LastThrow(s, OfMedia(d)) ==>
                  (Unwound(s'.media) <==> s'.media == Done && d == Clear))
  {
    assert Conserved(s);
  }

  lemma NoneOutLate(c: Config, s: State)
    requires Inv(c, s) && s.main in {JoiningMedia, Returned}
    ensures HandleCount(s.threads) == 0
  {
    NoHandles(s.threads, 0);
  }

  lemma LeavingStep(c: Config, s: State, step: Step)
    requires Inv(c, s) && Leaving(s) && Enabled(c, s, step)
    ensures var s' := Apply(c, s, step);
            && Leaving(s')
            && (Unwound(s.media) || LastThrow(s, step) ==> Unwound(s'.media) && (AllDestroyed(s') <==> AllDestroyed(s)))
            && (LastThrow(s, step) ==> !AllDestroyed(s))
            && (!Unwound(s.media) && !LastThrow(s, step) ==>
                  !Unwound(s'.media) || (s'.media == Done && AllDestroyed(s')))
  {
    OnlyMediaRuns(c, s, step);
    DestroyedStep(c, s, step);
    NoneOutLate(c, s);
    if step.OfMedia? { LeavingMedia(c, s, step.d); }
  }

  lemma {:induction false} NoThrowOnceUnwound(c: Config, s: State, steps: seq<Step>, s': State)
    requires Inv(c, s) && Leaving(s) && Unwound(s.media) && Run(c, s, steps, s')
    ensures !ThrowsLast(c, s, steps) && (AllDestroyed(s') <==> AllDestroyed(s))
    decreases |steps|
  {
    if steps != [] {
      LeavingStep(c, s, steps[0]);
      StepKeepsInv(c, s, steps[0]);
      NoThrowOnceUnwound(c, Apply(c, s, steps[0]), steps[1..], s');
    }
  }

  lemma {:induction false} LeavingOutcome(c: Config, s: State, steps: seq<Step>, s': State)
    requires Inv(c, s) && Leaving(s) && !Unwound(s.media) && Run(c, s, steps, s') && s'.media == Done
    ensures AllDestroyed(s') <==> !ThrowsLast(c, s, steps)
    decreases |steps|
  {
    if steps != [] {
      var mid := Apply(c, s, steps[0]);
      LeavingStep(c, s, steps[0]);
      StepKeepsInv(c, s, steps[0]);
      if Unwound(mid.media) {
        NoThrowOnceUnwound(c, mid, steps[1..], s');
      } else {
        LeavingOutcome(c, mid, steps[1..], s');
      }
    }
  }

  lemma LastStays(c: Config, s: State, step: Step)
    requires Enabled(c, s, step) && LastDispatch(s.media)
    ensures LastDispatch(Apply(c, s, step).media) && step != OfMedia(LeaveLoop)
  {
    if step.OfMedia? {
      assert Apply(c, s, step) == ApplyMedia(c, s, step.d);
    } else {
      assert Apply(c, s, step).media == s.media;
    }
  }

  lemma {:induction false} LeavesOnce(c: Config, s: State, steps: seq<Step>, s': State)
    requires LastDispatch(s.media) && Run(c, s, steps, s')
    ensures OfMedia(LeaveLoop) !in steps
    decreases |steps|
  {
    if steps != [] {
      LastStays(c, s, steps[0]);
      LeavesOnce(c, Apply(c, s, steps[0]), steps[1..], s');
    }
  }

  lemma LeaveStep(c: Config, s: State)
    requires Inv(c, s) && MediaEnabled(s, LeaveLoop)
    ensures var s' := Apply(c, s, OfMedia(LeaveLoop)); Leaving(s') && !Unwound(s'.media)
  {
  }

  lemma {:induction false} StoppedFrom(c: Config, s: State, steps: seq<Step>, s': State)
    requires Inv(c, s) && Run(c, s, steps, s') && s'.media == Done && OfMedia(LeaveLoop) in steps
    ensures AllDestroyed(s') <==> !ThrowsLast(c, s, steps)
    decreases |steps|
  {
    var mid := Apply(c, s, steps[0]);
    StepKeepsInv(c, s, steps[0]);
    if steps[0] == OfMedia(LeaveLoop) {
      LeaveStep(c, s);
      LeavingOutcome(c, mid, steps[1..], s');
    } else {
      if LastDispatch(s.media) { LeavesOnce(c, s, steps, s'); }
      StoppedFrom(c, mid, steps[1..], s');
    }
  }

  /** If the media thread leaves its loop because it was stopped, every item is destroyed when
      `run_loop` returns exactly if the last dispatch does not throw. */
  lemma StoppedThread(c: Config, producers: nat, steps: seq<Step>, s: State)
    requires ValidConfig(c) && Run(c, Init(c, producers), steps, s)
    requires s.main == Returned && OfMedia(LeaveLoop) in steps
    ensures AllDestroyed(s) <==> !ThrowsLast(c, Init(c, producers), steps)
  {
    InitInv(c, producers);
    RunKeepsInv(c, Init(c, producers), steps, s);
    StoppedFrom(c, Init(c, producers), steps, s);
  }

  // ----- A run that destroys nothing

  lemma {:induction false} RunAppend(c: Config, s: State, a: seq<Step>, mid: State, b: seq<Step>, s': State)
    requires Run(c, s, a, mid) && Run(c, mid, b, s')
    ensures Run(c, s, a + b, s')
    decreases |a|
  {
    if a == [] {
      assert a + b == b;
    } else {
      assert (a + b)[1..] == a[1..] + b;
      RunAppend(c, Apply(c, s, a[0]), a[1..], mid, b, s');
    }
  }

  lemma RunThen(c: Config, s: State, a: seq<Step>, mid: State, step: Step)
    requires Run(c, s, a, mid) && Enabled(c, mid, step)
    ensures Run(c, s, a + [step], Apply(c, mid, step))
  {
    assert [step][1..] == [];
    RunAppend(c, s, a, mid, [step], Apply(c, mid, step));
  }

  /** The media thread changes nothing of the other threads. */
  lemma {:induction false} MediaFrame(c: Config, s: State, ds: seq<MediaStep>, s': State)
    requires MediaRun(c, s, ds, s')
    ensures s'.main == s.main && s'.stop == s.stop && s'.threads == s.threads
    decreases |ds|
  {
    if ds != [] { MediaFrame(c, ApplyMedia(c, s, ds[0]), ds[1..], s'); }
  }

  /** The main thread is alone, the media thread has not begun, and nothing is in the pool. */
  ghost predicate Alone(c: Config, s: State) {
    && ValidConfig(c) && s.threads == [Idle] && s.media == Starting && !s.open && !s.stop
    && s.core.pool == [] && s.core.destroyed == [] && s.packet.None? && s.drained == []
    && |s.core.out| == |s.produced| == |c.streams| && InRange(s.core, s.core.pending)
    && s.core.muxed == [] && s.completed == []
  }

  lemma RunTwo(c: Config, s: State, x: Step, y: Step)
    requires Enabled(c, s, x) && Enabled(c, Apply(c, s, x), y)
    ensures Run(c, s, [x, y], Apply(c, Apply(c, s, x), y))
  {
    assert Run(c, s, [], s);
    RunThen(c, s, [], s, x);
    RunThen(c, s, [] + [x], Apply(c, s, x), y);
    assert [] + [x] + [y] == [x, y];
  }

  /** With an empty pool, preparing a flush creates an item. */
  lemma PrepareAlone(c: Config, s: State, codec: nat) returns (s': State)
    requires Alone(c, s) && MayPrepare(c, s, 0, codec, true)
    ensures Run(c, s, [OfProducer(0, GetMiss(codec, true)), OfProducer(0, Allocate)], s')
    ensures s' == s.(core := CreateItem(s.core), threads := [Holding(Prepared(c, s.core.created, codec, true))])
  {
    var mid := ApplyProducer(c, s, 0, GetMiss(codec, true));
    RunTwo(c, s, OfProducer(0, GetMiss(codec, true)), OfProducer(0, Allocate));
    s' := ApplyProducer(c, mid, 0, Allocate);
  }

  lemma WriteAlone(c: Config, s: State, e: Entry) returns (s': State)
    requires Alone(c, s.(threads := [Idle])) && s.threads == [Holding(e)] && e.codec < |c.streams|
    requires s.main == FlushVideo || s.main == FlushAudio
    ensures Run(c, s, [OfProducer(0, Push([])), OfProducer(0, Notify)], s')
    ensures Alone(c, s') && s'.core.pending == s.core.pending + [e] && s'.core.created == s.core.created
    ensures s'.main == if s.main == FlushVideo then FlushAudio else Stopping
  {
    var mid := ApplyProducer(c, s, 0, Push([]));
    RunTwo(c, s, OfProducer(0, Push([])), OfProducer(0, Notify));
    s' := ApplyProducer(c, mid, 0, Notify);
  }

  /** One flush queues one new item. */
  lemma FlushAlone(c: Config, s: State) returns (steps: seq<Step>, s': State)
    requires Alone(c, s) && (s.main == FlushVideo || s.main == FlushAudio)
    ensures Run(c, s, steps, s') && Alone(c, s') && s'.core.created == s.core.created + 1
    ensures |s'.core.pending| == |s.core.pending| + 1
    ensures s'.main == if s.main == FlushVideo then FlushAudio else Stopping
  {
    var codec := if s.main == FlushVideo then c.video else c.audio;
    var mid := PrepareAlone(c, s, codec);
    s' := WriteAlone(c, mid, Prepared(c, s.core.created, codec, true));
    var a := [OfProducer(0, GetMiss(codec, true)), OfProducer(0, Allocate)];
    var b := [OfProducer(0, Push([])), OfProducer(0, Notify)];
    RunAppend(c, s, a, mid, b, s');
    steps := a + b;
  }

  lemma JoinAlone(c: Config) returns (s: State)
    requires ValidConfig(c)
    ensures Run(c, Init(c, 0), [OfProducer(0, Exit), OfMain(JoinProducers)], s)
    ensures Alone(c, s) && s.main == FlushVideo && s.core.pending == [] && s.core.created == 0
  {
    var s0 := Init(c, 0);
    RunTwo(c, s0, OfProducer(0, Exit), OfMain(JoinProducers));
    s := ApplyMain(c, ApplyProducer(c, s0, 0, Exit), JoinProducers);
  }

  lemma FlushBoth(c: Config, s: State) returns (steps: seq<Step>, s': State)
    requires Alone(c, s) && s.main == FlushVideo
    ensures Run(c, s, steps, s') && Alone(c, s') && s'.main == Stopping
    ensures |s'.core.pending| == |s.core.pending| + 2 && s'.core.created == s.core.created + 2
  {
    var mid, audio;
    steps, mid := FlushAlone(c, s);
    audio, s' := FlushAlone(c, mid);
    RunAppend(c, s, steps, mid, audio, s');
    steps := steps + audio;
  }

  lemma MainAlone(c: Config) returns (steps: seq<Step>, s: State)
    requires ValidConfig(c)
    ensures Run(c, Init(c, 0), steps, s) && Alone(c, s.(stop := false)) && s.stop
    ensures s.main == JoiningMedia && |s.core.pending| == 2 && s.core.created == 2
  {
    var joined := JoinAlone(c);
    var flushes, flushed := FlushBoth(c, joined);
    steps := [OfProducer(0, Exit), OfMain(JoinProducers)];
    RunAppend(c, Init(c, 0), steps, joined, flushes, flushed);
    RunThen(c, Init(c, 0), steps + flushes, flushed, OfMain(RequestStop));
    steps, s := steps + flushes + [OfMain(RequestStop)], ApplyMain(c, flushed, RequestStop);
  }

  /** The pool is filled while the main thread waits. */
  lemma {:induction false} FillAlone(c: Config, s: State) returns (ds: seq<MediaStep>, s': State)
    requires s.media.Filling?
    ensures MediaRun(c, s, ds, s') && s'.media == Polling
    ensures s'.core == s.core.(pool := s'.core.pool, created := s'.core.created)
    ensures s'.packet == s.packet && s'.drained == s.drained && s'.core.created >= s.core.created
    decreases s.media.left
  {
    if s.media.left == 0 {
      RunOne(c, s, FillDone);
      ds, s' := [FillDone], ApplyMedia(c, s, FillDone);
    } else {
      var mid := ApplyMedia(c, s, FillOne);
      RunOne(c, s, FillOne);
      ds, s' := FillAlone(c, mid);
      MediaRunAppend(c, s, [FillOne], mid, ds, s');
      ds := [FillOne] + ds;
    }
  }

  lemma LeaveAlone(c: Config, s: State) returns (ds: seq<MediaStep>, s': State)
    requires s.media == Polling && s.stop
    ensures MediaRun(c, s, ds, s') && s'.media == Splicing(true)
    ensures s'.core == s.core && s'.packet == s.packet && s'.drained == s.drained
  {
    var mid := ApplyMedia(c, s, LeaveLoop);
    RunOne(c, s, LeaveLoop);
    Chain(c, s, [LeaveLoop], mid, CloseEvent);
    ds, s' := [LeaveLoop] + [CloseEvent], ApplyMedia(c, mid, CloseEvent);
  }

  lemma StartAndLeave(c: Config, s: State) returns (ds: seq<MediaStep>, s': State)
    requires s.media == Starting && s.stop
    ensures MediaRun(c, s, ds, s') && s'.media == Splicing(true)
    ensures s'.core == s.core.(pool := s'.core.pool, created := s'.core.created)
    ensures s'.packet == s.packet && s'.drained == s.drained && s'.core.created >= s.core.created
  {
    var a := ApplyMedia(c, s, OpenEvent);
    RunOne(c, s, OpenEvent);
    var fill, b := FillAlone(c, a);
    MediaRunAppend(c, s, [OpenEvent], a, fill, b);
    MediaFrame(c, s, [OpenEvent] + fill, b);
    var leave;
    leave, s' := LeaveAlone(c, b);
    MediaRunAppend(c, s, [OpenEvent] + fill, b, leave, s');
    ds := [OpenEvent] + fill + leave;
  }

  /** A dispatch may fail at its very first call. */
  lemma FailsAtOnce(k: Core) returns (r: Core)
    requires k.pending != [] && InRange(k, k.pending)
    ensures DispatchBroken(k, r) && r.created == k.created && r.destroyed == k.destroyed && r.pending == []
  {
    r := k.(pending := [], pool := k.pool + ItemsOf(k.pending));
    var d, e := TakePending(k), k.pending[0];
    assert e in k.pending && k.pending[..0] == [];
    assert CutAt(e.stream, d.out[e.codec], 0, d.out[e.codec], d.muxed, d.muxed);
    assert Broken(d, k.pending, 0, d);
    assert r.(pool := k.pool) == d;
  }

  lemma MediaLeaks(c: Config, s: State) returns (ds: seq<MediaStep>, s': State)
    requires s.media == Starting && s.stop && s.packet.None? && s.drained == []
    requires s.core.pending != [] && InRange(s.core, s.core.pending)
    ensures MediaRun(c, s, ds, s') && s'.media == Done && s'.core.pending == []
    ensures s'.core.created >= s.core.created && s'.core.destroyed == s.core.destroyed
  {
    var mid;
    ds, mid := StartAndLeave(c, s);
    var r := FailsAtOnce(mid.core);
    var last;
    last, s' := DispatchBrokenAlone(c, mid, r);
    MediaRunAppend(c, s, ds, mid, last, s');
    ds := ds + last;
  }

  /** For every configuration there is a run in which `run_loop` returns and no item was destroyed:
      the last dispatch throws, and `on_uninit` skips the clearing of the pool. They all wait in the
      pool for its destructor. */
  lemma PoolCanStayFull(c: Config) returns (steps: seq<Step>, s: State)
    requires ValidConfig(c)
    ensures Run(c, Init(c, 0), steps, s) && s.main == Returned
    ensures s.core.created > 0 && s.core.destroyed == [] && !AllDestroyed(s) && s.core.pending == []
  {
    var s0, mid, ds, done := Init(c, 0), Init(c, 0), [], Init(c, 0);
    steps, mid := MainAlone(c);
    ds, done := MediaLeaks(c, mid);
    MediaFrame(c, mid, ds, done);
    MediaRunIsRun(c, mid, ds, done);
    RunAppend(c, s0, steps, mid, OfMediaAll(ds), done);
    RunThen(c, s0, steps + OfMediaAll(ds), done, OfMain(JoinMedia));
    steps, s := steps + OfMediaAll(ds) + [OfMain(JoinMedia)], ApplyMain(c, done, JoinMedia);
  }

  // ----- After the pool's destructor

  /** `~Pool` clears the pool once more; nothing frees what is still queued. */
  ghost function PoolDestroyed(s: State): State {
    s.(core := ClearPool(s.core))
  }

  /** When `run_loop` has returned and the pool is gone, the items that were never destroyed are those
      left in the queue. */
  lemma QueuedItemsLeak(c: Config, s: State)
    requires ValidConfig(c) && Reachable(c, s) && s.main == Returned
    ensures s.core.created == |PoolDestroyed(s).core.destroyed| + |s.core.pending|
    ensures AllDestroyed(PoolDestroyed(s)) <==> s.core.pending == []
  {
    ReachableInv(c, s);
    NoneOutLate(c, s);
    assert Conserved(s);
  }

  ghost predicate IsPush(step: Step) {
    step.OfProducer? && step.p.Push?
  }

  /** Every push is followed by a splice. */
  ghost predicate AllSpliced(steps: seq<Step>) {
    forall i | 0 <= i < |steps| && IsPush(steps[i]) :: OfMedia(Splice) in steps[i + 1..]
  }

  lemma AllSplicedRest(steps: seq<Step>)
    requires steps != []
    ensures AllSpliced(steps) <==> (IsPush(steps[0]) ==> OfMedia(Splice) in steps[1..]) && AllSpliced(steps[1..])
  {
    var rest := steps[1..];
    forall i | 1 <= i < |steps| ensures steps[i] == rest[i - 1] && steps[i + 1..] == rest[i..] {}
    if AllSpliced(steps) {
      forall i | 0 <= i < |rest| && IsPush(rest[i]) ensures OfMedia(Splice) in rest[i + 1..] {
        assert IsPush(steps[i + 1]);
      }
    }
  }

  lemma QueueStep(c: Config, s: State, step: Step)
    requires Enabled(c, s, step)
    ensures Apply(c, s, step).core.pending == [] <==> step == OfMedia(Splice) || (s.core.pending == [] && !IsPush(step))
  {
    match step
    case OfProducer(t, p) => assert p.Push? || ApplyProducer(c, s, t, p).core.pending == s.core.pending;
    case OfMain(_) =>
    case OfMedia(d) => assert d.Splice? || ApplyMedia(c, s, d).core.pending == s.core.pending;
  }

  lemma {:induction false} QueueOverRun(c: Config, s: State, steps: seq<Step>, s': State)
    requires Run(c, s, steps, s')
    ensures s'.core.pending == [] <==> (s.core.pending == [] || OfMedia(Splice) in steps) && AllSpliced(steps)
    decreases |steps|
  {
    if steps != [] {
      QueueStep(c, s, steps[0]);
      AllSplicedRest(steps);
      QueueOverRun(c, Apply(c, s, steps[0]), steps[1..], s');
    }
  }

  /** Exactly which runs leave no item undestroyed once the pool is gone: those in which every push is
      followed by a splice. */
  lemma LeaksExactly(c: Config, producers: nat, steps: seq<Step>, s: State)
    requires ValidConfig(c) && Run(c, Init(c, producers), steps, s) && s.main == Returned
    ensures AllDestroyed(PoolDestroyed(s)) <==> AllSpliced(steps)
  {
    QueuedItemsLeak(c, s);
    QueueOverRun(c, Init(c, producers), steps, s);
  }

  /** For every configuration there is a run in which the service's initialisation throws and both
      flush entries stay queued: their items leak, and their codecs are never drained. */
  lemma FlushesCanLeak(c: Config) returns (steps: seq<Step>, s: State)
    requires ValidConfig(c)
    ensures Run(c, Init(c, 0), steps, s) && s.main == Returned
    ensures |s.core.pending| == 2 && s.core.muxed == [] && s.completed == [] && !AllDestroyed(PoolDestroyed(s))
  {
    var mid;
    steps, mid := MainAlone(c);
    RunThen(c, Init(c, 0), steps, mid, OfMedia(InitThrows));
    var done := ApplyMedia(c, mid, InitThrows);
    RunThen(c, Init(c, 0), steps + [OfMedia(InitThrows)], done, OfMain(JoinMedia));
    steps, s := steps + [OfMedia(InitThrows)] + [OfMain(JoinMedia)], ApplyMain(c, done, JoinMedia);
  }
}
