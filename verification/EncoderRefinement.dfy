/** The methods of the service on the heap are what the threads of the step relation do: each method's
    effect on the shared data is that of the steps it stands for. */
module EncoderRefinement {
  import opened Common
  import opened EncoderPipeline
  import opened EncoderSafety
  import opened EncoderDispatch
  import Service = EncoderService

  // ----- A producer

  /** `write_frame`: the critical section, then the write to the eventfd. */
  lemma WriteFrameIsSteps(c: Config, s: State, t: nat, e: Entry, packets: seq<Packet>)
    requires ProducerEnabled(c, s, t, Push(packets)) && s.threads[t] == Holding(e)
    ensures var pushed := ApplyProducer(c, s, t, Push(packets));
            && pushed.core == SendAndQueue(s.core, e, packets) && ProducerEnabled(c, pushed, t, Notify)
            && ApplyProducer(c, pushed, t, Notify).core == Service.Bumped(SendAndQueue(s.core, e, packets), s.open)
  {
  }

  /** `prepare_frame`: an item of the pool, or a miss and then a new one. */
  lemma PrepareIsSteps(c: Config, s: State, t: nat, codec: nat, flush: bool) returns (s': State)
    requires t < |s.threads| && MayPrepare(c, s, t, codec, flush)
    ensures s'.core == Service.Got(s.core).0
    ensures |s'.threads| == |s.threads| && s'.threads[t] == Holding(Prepared(c, Service.Got(s.core).1, codec, flush))
    ensures if s.core.pool != [] then
              && ProducerEnabled(c, s, t, GetHit(codec, flush))
              && s' == ApplyProducer(c, s, t, GetHit(codec, flush))
            else ProducerEnabled(c, s, t, GetMiss(codec, flush))
                 && ProducerEnabled(c, ApplyProducer(c, s, t, GetMiss(codec, flush)), t, Allocate)
                 && s' == ApplyProducer(c, ApplyProducer(c, s, t, GetMiss(codec, flush)), t, Allocate)
  {
    if s.core.pool != [] {
      s' := ApplyProducer(c, s, t, GetHit(codec, flush));
    } else {
      s' := ApplyProducer(c, ApplyProducer(c, s, t, GetMiss(codec, flush)), t, Allocate);
    }
  }

  // ----- The media thread

  /** The read of the eventfd: it zeroes the counter while the eventfd is open, and after it was closed,
      in the last dispatch, there is nothing to read. */
  lemma ReadIsStep(c: Config, s: State)
    ensures MediaEnabled(s, ReadEvent) ==> ApplyMedia(c, s, ReadEvent).core == Service.Woken(s.core, true)
    ensures MediaEnabled(s, CloseEvent) ==> ApplyMedia(c, s, CloseEvent).core == Service.Woken(s.core, false)
  {
  }

  lemma {:induction false} FillSteps(c: Config, s: State, n: nat) returns (ds: seq<MediaStep>, s': State)
    requires s.media.Filling? && n <= s.media.left && s.core.counter == 0
    ensures MediaRun(c, s, ds, s') && s'.media == Filling(s.media.left - n)
    ensures s'.core == Service.Stocked(s.core, n)
    decreases n
  {
    if n == 0 {
      ds, s' := [], s;
      assert s.core.pool + [] == s.core.pool;
    } else {
      var mid := ApplyMedia(c, s, FillOne);
      RunOne(c, s, FillOne);
      ds, s' := FillSteps(c, mid, n - 1);
      MediaRunAppend(c, s, [FillOne], mid, ds, s');
      ds := [FillOne] + ds;
      StockedOneMore(s.core, n);
    }
  }

  lemma StockedOneMore(k: Core, n: nat)
    requires n > 0
    ensures Service.Stocked(PutBack(CreateItem(k), k.created), n - 1) == Service.Stocked(k, n)
  {
    var more, all := seq(n - 1, i => k.created + 1 + i), seq(n, i => k.created + i);
    assert [k.created] + more == all;
    assert k.pool + [k.created] + more == k.pool + all;
  }

  /** `on_init` up to the end of the filling, or up to the item that cannot be constructed. */
  lemma InitIsSteps(c: Config, s: State, n: nat) returns (ds: seq<MediaStep>, s': State)
    requires s.media == Starting && s.core.counter == 0 && n <= c.initialPool
    ensures MediaRun(c, s, ds, s') && s'.core == Service.Stocked(s.core, n)
    ensures s'.media == if n == c.initialPool then Polling else Done
  {
    var ready := ApplyMedia(c, s, OpenEvent);
    RunOne(c, s, OpenEvent);
    var fill, filled := FillSteps(c, ready, n);
    MediaRunAppend(c, s, [OpenEvent], ready, fill, filled);
    ds := [OpenEvent] + fill;
    var last := if n == c.initialPool then FillDone else FillThrows;
    Chain(c, s, ds, filled, last);
    ds, s' := ds + [last], ApplyMedia(c, filled, last);
  }

  /** `on_uninit`, undisturbed and without an exception. */
  lemma UninitIsSteps(c: Config, s: State) returns (ds: seq<MediaStep>, s': State)
    requires s.media == Closing && s.packet.None? && s.drained == [] && InRange(s.core, s.core.pending)
    ensures MediaRun(c, s, ds, s') && s'.core == ClearPool(Dispatched(s.core)) && s'.media == Done
  {
    var closed := ApplyMedia(c, s, CloseEvent);
    RunOne(c, s, CloseEvent);
    var dispatch, mid := DispatchAlone(c, closed);
    MediaRunAppend(c, s, [CloseEvent], closed, dispatch, mid);
    ds := [CloseEvent] + dispatch;
    Chain(c, s, ds, mid, Clear);
    ds, s' := ds + [Clear], ApplyMedia(c, mid, Clear);
  }

  // ----- What follows a dispatch

  /** A dispatch that ends without an exception goes back to the poll; the last one goes on to clear the
      pool. */
  lemma AfterGoodDispatch(c: Config, s: State)
    requires MediaEnabled(s, ReturnDone) && !s.media.threw
    ensures ApplyMedia(c, s, ReturnDone).media == if s.media.last then Clearing else Polling
  {
  }

  ghost predicate LeftForGood(m: Media) {
    match m
    case Closing => true
    case Splicing(last) => last
    case Draining(last) => last
    case Returning(last, threw) => last || threw
    case Clearing => true
    case Done => true
    case _ => false
  }

  lemma LeftForGoodStays(c: Config, s: State, step: Step)
    requires Enabled(c, s, step) && LeftForGood(s.media)
    ensures LeftForGood(Apply(c, s, step).media)
  {
    if step.OfMedia? {
      assert Apply(c, s, step) == ApplyMedia(c, s, step.d);
    } else {
      assert Apply(c, s, step).media == s.media;
    }
  }

  /** Once a dispatch has thrown, or the loop was left otherwise, the media thread never polls again. */
  lemma {:induction false} NeverPollsAgain(c: Config, s: State, steps: seq<Step>, s': State)
    requires Run(c, s, steps, s') && LeftForGood(s.media)
    ensures !s'.media.Polling? && !s'.media.Reading? && !s'.media.Filling? && !s'.media.Starting?
    ensures OfMedia(Wake) !in steps && OfMedia(ReadEvent) !in steps
    decreases |steps|
  {
    if steps != [] {
      LeftForGoodStays(c, s, steps[0]);
      NeverPollsAgain(c, Apply(c, s, steps[0]), steps[1..], s');
    }
  }

  lemma ThrowEndsPolling(c: Config, s: State, steps: seq<Step>, s': State)
    requires Run(c, s, steps, s') && s.media.Returning? && s.media.threw
    ensures !s'.media.Polling? && OfMedia(Wake) !in steps
  {
    NeverPollsAgain(c, s, steps, s');
  }
}
