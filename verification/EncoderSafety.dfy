/** What every step of the encoder pipeline keeps. */
module EncoderSafety {
  import opened Common
  import opened EncoderPipeline

  // ----- Shape

  ghost predicate Paired(c: Config, e: Entry) {
    e.codec < |c.streams| && e.stream == c.streams[e.codec]
  }

  ghost predicate AllPaired(c: Config, es: seq<Entry>) {
    forall e | e in es :: Paired(c, e)
  }

  ghost predicate ProducerPaired(c: Config, w: Producer) {
    && (w.Missed? ==> w.codec < |c.streams|)
    && (w.Holding? ==> Paired(c, w.entry))
  }

  /** Every entry travels with its codec's stream. */
  ghost predicate Wired(c: Config, s: State) {
    && ValidConfig(c)
    && |s.core.out| == |s.produced| == |c.streams|
    && (forall t | 0 <= t < |s.threads| :: ProducerPaired(c, s.threads[t]))
    && AllPaired(c, s.core.pending) && AllPaired(c, s.drained) && AllPaired(c, s.todo)
  }

  ghost predicate OpenFor(m: Media) {
    match m
    case Filling(_) => true
    case Polling => true
    case Reading => true
    case Splicing(last) => !last
    case Draining(last) => !last
    case Returning(last, _) => !last
    case Closing => true
    case _ => false
  }

  /** What the media thread's program counter says about its local data. */
  ghost predicate Phases(s: State) {
    && |s.threads| > 0
    && (!s.media.Draining? && !s.media.Returning? ==> s.drained == [] && s.todo == [])
    && (s.packet.Some? ==> s.media.Draining? && s.todo != [])
    && (s.media.Returning? ==> if s.media.threw then s.fault else s.todo == [])
    && (OpenFor(s.media) ==> s.open)
    && (s.open ==> OpenFor(s.media) || (s.media == Done && s.fault))
  }

  lemma PhasesMedia(c: Config, s: State, d: MediaStep)
    requires Phases(s) && MediaEnabled(s, d)
    ensures Phases(ApplyMedia(c, s, d))
  {
    match d
    case OpenEvent => case InitThrows => case FillOne => case FillThrows => case FillDone =>
    case Wake => case ReadEvent =>
    case Splice => case Receive => case ReceiveAgain => case ReceiveThrows => case Mux => case MuxThrows =>
    case DrainDone => case ReturnOne => case ReturnDone =>
    case LeaveLoop => case PollThrows => case CloseEvent => case Clear =>
  }

  lemma PhasesProducer(c: Config, s: State, t: nat, p: ProducerStep)
    requires Phases(s) && ProducerEnabled(c, s, t, p)
    ensures Phases(ApplyProducer(c, s, t, p))
  {
    match p
    case GetHit(_, _) => case GetMiss(_, _) => case Allocate => case AllocateThrows => case DropHandle =>
    case Push(_) => case Notify => case Exit =>
  }

  lemma PhasesKept(c: Config, s: State, step: Step)
    requires Phases(s) && Enabled(c, s, step)
    ensures Phases(Apply(c, s, step))
  {
    match step
    case OfProducer(t, p) => PhasesProducer(c, s, t, p);
    case OfMain(_) =>
    case OfMedia(d) => PhasesMedia(c, s, d);
  }

  lemma WiredMedia(c: Config, s: State, d: MediaStep)
    requires Wired(c, s) && MediaEnabled(s, d)
    ensures Wired(c, ApplyMedia(c, s, d))
  {
    match d
    case OpenEvent => case InitThrows => case FillOne => case FillThrows => case FillDone =>
    case Wake => case ReadEvent =>
    case Splice => case Receive => case ReceiveAgain => case ReceiveThrows => case Mux => case MuxThrows =>
    case DrainDone => case ReturnOne => case ReturnDone =>
    case LeaveLoop => case PollThrows => case CloseEvent => case Clear =>
  }

  lemma WiredProducer(c: Config, s: State, t: nat, p: ProducerStep)
    requires Wired(c, s) && ProducerEnabled(c, s, t, p)
    ensures Wired(c, ApplyProducer(c, s, t, p))
  {
    match p
    case GetHit(_, _) => case GetMiss(_, _) => case Allocate => case AllocateThrows => case DropHandle =>
    case Push(_) => case Notify => case Exit =>
  }

  lemma WiredKept(c: Config, s: State, step: Step)
    requires Wired(c, s) && Enabled(c, s, step)
    ensures Wired(c, Apply(c, s, step))
  {
    match step
    case OfProducer(t, p) => WiredProducer(c, s, t, p);
    case OfMain(_) =>
    case OfMedia(d) => WiredMedia(c, s, d);
  }

  // ----- No packet is left behind in a codec

  ghost predicate Names(es: seq<Entry>, codec: nat) {
    exists i :: 0 <= i < |es| && es[i].codec == codec
  }

  /** A codec that can deliver a packet is named by an entry still to be drained. */
  ghost predicate NoStranded(s: State) {
    s.fault || forall k | 0 <= k < |s.core.out| && s.core.out[k] != [] ::
      Names(s.core.pending, k) || Names(s.todo, k)
  }

  lemma NamesAppend(es: seq<Entry>, e: Entry)
    ensures Names(es + [e], e.codec)
    ensures forall k: nat | Names(es, k) :: Names(es + [e], k)
  {
    assert (es + [e])[|es|] == e;
    forall k: nat | Names(es, k) ensures Names(es + [e], k) {
      var i :| 0 <= i < |es| && es[i].codec == k;
      assert (es + [e])[i].codec == k;
    }
  }

  lemma NamesTail(es: seq<Entry>, k: nat)
    requires es != [] && Names(es, k) && es[0].codec != k
    ensures Names(es[1..], k)
  {
    var i :| 0 <= i < |es| && es[i].codec == k;
    assert es[1..][i - 1].codec == k;
  }

  lemma NoStrandedMedia(c: Config, s: State, d: MediaStep)
    requires Phases(s) && MediaEnabled(s, d) && NoStranded(s)
    ensures NoStranded(ApplyMedia(c, s, d))
  {
    match d
    case ReceiveAgain =>
      var s' := ApplyMedia(c, s, d);
      forall k | !s.fault && 0 <= k < |s.core.out| && s.core.out[k] != []
        ensures Names(s'.core.pending, k) || Names(s'.todo, k)
      {
        if !Names(s.core.pending, k) { NamesTail(s.todo, k); }
      }
    case OpenEvent => case InitThrows => case FillOne => case FillThrows => case FillDone =>
    case Wake => case ReadEvent =>
    case Splice => case Receive => case ReceiveThrows => case Mux => case MuxThrows =>
    case DrainDone => case ReturnOne => case ReturnDone =>
    case LeaveLoop => case PollThrows => case CloseEvent => case Clear =>
  }

  lemma NoStrandedProducer(c: Config, s: State, t: nat, p: ProducerStep)
    requires Phases(s) && NoStranded(s) && ProducerEnabled(c, s, t, p)
    ensures NoStranded(ApplyProducer(c, s, t, p))
  {
    match p
    case Push(_) => NamesAppend(s.core.pending, s.threads[t].entry);
    case GetHit(_, _) => case GetMiss(_, _) => case Allocate => case AllocateThrows => case DropHandle =>
    case Notify => case Exit =>
  }

  lemma NoStrandedKept(c: Config, s: State, step: Step)
    requires Phases(s) && Enabled(c, s, step) && NoStranded(s)
    ensures NoStranded(Apply(c, s, step))
  {
    match step
    case OfProducer(t, p) => NoStrandedProducer(c, s, t, p);
    case OfMain(_) =>
    case OfMedia(d) => NoStrandedMedia(c, s, d);
  }

  // ----- No wake-up is lost

  ghost predicate SomeoneNotifies(threads: seq<Producer>) {
    exists t :: 0 <= t < |threads| && threads[t] == Notifying(true)
  }

  /** The media thread will look at the queue again without further help. */
  ghost predicate WillLook(s: State) {
    s.core.counter > 0 || SomeoneNotifies(s.threads) || s.media == Splicing(false)
  }

  ghost predicate NoLostWakeup(s: State) {
    && (s.open && |s.core.pending| > s.stale ==> WillLook(s))
    && (s.media == Starting ==> |s.core.pending| == s.stale && !SomeoneNotifies(s.threads))
    && (s.media == Reading ==> s.core.counter > 0)
  }

  lemma StillNotifies(threads: seq<Producer>, t: nat, w: Producer)
    requires t < |threads| && threads[t] != Notifying(true)
    ensures SomeoneNotifies(threads) ==> SomeoneNotifies(threads[t := w])
    ensures w == Notifying(true) ==> SomeoneNotifies(threads[t := w])
  {
    if SomeoneNotifies(threads) {
      var u :| 0 <= u < |threads| && threads[u] == Notifying(true);
      assert threads[t := w][u] == Notifying(true);
    }
    assert threads[t := w][t] == w;
  }

  lemma NoLostWakeupProducer(c: Config, s: State, t: nat, p: ProducerStep)
    requires Phases(s) && ProducerEnabled(c, s, t, p) && NoLostWakeup(s)
    ensures NoLostWakeup(ApplyProducer(c, s, t, p))
  {
    if !p.Notify? { StillNotifies(s.threads, t, ApplyProducer(c, s, t, p).threads[t]); }
    match p
    case GetHit(_, _) => case GetMiss(_, _) => case Allocate => case AllocateThrows => case DropHandle =>
    case Push(_) => case Notify => case Exit =>
  }

  lemma NoLostWakeupMedia(c: Config, s: State, d: MediaStep)
    requires Phases(s) && MediaEnabled(s, d) && NoLostWakeup(s)
    ensures NoLostWakeup(ApplyMedia(c, s, d))
  {
    match d
    case OpenEvent => case InitThrows => case FillOne => case FillThrows => case FillDone =>
    case Wake => case ReadEvent =>
    case Splice => case Receive => case ReceiveAgain => case ReceiveThrows => case Mux => case MuxThrows =>
    case DrainDone => case ReturnOne => case ReturnDone =>
    case LeaveLoop => case PollThrows => case CloseEvent => case Clear =>
  }

  lemma NoLostWakeupKept(c: Config, s: State, step: Step)
    requires Phases(s) && Enabled(c, s, step) && NoLostWakeup(s)
    ensures NoLostWakeup(Apply(c, s, step))
  {
    match step
    case OfProducer(t, p) => NoLostWakeupProducer(c, s, t, p);
    case OfMain(m) => if m.FlushThrows? { StillNotifies(s.threads, 0, Idle); }
    case OfMedia(d) => NoLostWakeupMedia(c, s, d);
  }

  // ----- Entries are drained in push order

  ghost predicate InOrder(s: State) {
    s.fault || s.completed + s.todo + s.core.pending == s.pushed
  }

  lemma InOrderMedia(c: Config, s: State, d: MediaStep)
    requires Phases(s) && MediaEnabled(s, d) && InOrder(s)
    ensures InOrder(ApplyMedia(c, s, d))
  {
    match d
    case Splice => assert s.completed + s.core.pending + [] == s.completed + [] + s.core.pending;
    case ReceiveAgain => assert s.completed + [s.todo[0]] + s.todo[1..] == s.completed + s.todo;
    case OpenEvent => case InitThrows => case FillOne => case FillThrows => case FillDone =>
    case Wake => case ReadEvent =>
    case Receive => case ReceiveThrows => case Mux => case MuxThrows =>
    case DrainDone => case ReturnOne => case ReturnDone =>
    case LeaveLoop => case PollThrows => case CloseEvent => case Clear =>
  }

  lemma InOrderProducer(c: Config, s: State, t: nat, p: ProducerStep)
    requires Phases(s) && InOrder(s) && ProducerEnabled(c, s, t, p)
    ensures InOrder(ApplyProducer(c, s, t, p))
  {
    match p
    case Push(_) =>
      var e := s.threads[t].entry;
      assert s.completed + s.todo + (s.core.pending + [e]) == s.completed + s.todo + s.core.pending + [e];
    case GetHit(_, _) => case GetMiss(_, _) => case Allocate => case AllocateThrows => case DropHandle =>
    case Notify => case Exit =>
  }

  lemma InOrderKept(c: Config, s: State, step: Step)
    requires Phases(s) && Enabled(c, s, step) && InOrder(s)
    ensures InOrder(Apply(c, s, step))
  {
    match step
    case OfProducer(t, p) => InOrderProducer(c, s, t, p);
    case OfMain(_) =>
    case OfMedia(d) => InOrderMedia(c, s, d);
  }

  // ----- Packets reach the muxer in codec order, none twice and none skipped

  /** The packets stamped with `stream`, in the order they were muxed. */
  ghost function OfStream(muxed: seq<Muxed>, stream: nat): seq<Packet> {
    if muxed == [] then []
    else
      var last := muxed[|muxed| - 1];
      OfStream(muxed[..|muxed| - 1], stream) + if last.stream == stream then [last.packet] else []
  }

  ghost function InFlight(s: State, codec: nat): seq<Packet> {
    if s.packet.Some? && s.todo != [] && s.todo[0].codec == codec then [s.packet.value] else []
  }

  /** What came from codec `k`, in order: muxed on its stream, being muxed, or still in the codec. */
  ghost function Delivered(c: Config, s: State, k: nat): seq<Packet>
    requires Wired(c, s) && k < |c.streams|
  {
    OfStream(s.core.muxed, c.streams[k]) + InFlight(s, k) + s.core.out[k]
  }

  /** That is everything codec `k` produced. */
  ghost predicate CodecLedger(c: Config, s: State, k: nat)
    requires Wired(c, s) && k < |c.streams|
  {
    Delivered(c, s, k) == s.produced[k]
  }

  ghost predicate PacketLedger(c: Config, s: State)
    requires Wired(c, s)
  {
    s.fault || forall k | 0 <= k < |c.streams| :: CodecLedger(c, s, k)
  }

  lemma OfStreamAppend(muxed: seq<Muxed>, m: Muxed, stream: nat)
    ensures OfStream(muxed + [m], stream) == OfStream(muxed, stream) + if m.stream == stream then [m.packet] else []
  {
    assert (muxed + [m])[..|muxed|] == muxed;
  }

  lemma DeliveredReceive(c: Config, s: State, k: nat)
    requires Wired(c, s) && Phases(s) && MediaEnabled(s, Receive) && k < |c.streams|
    requires Wired(c, ApplyMedia(c, s, Receive))
    ensures Delivered(c, ApplyMedia(c, s, Receive), k) == Delivered(c, s, k)
  {
    if k == s.todo[0].codec {
      var muxed, queue := OfStream(s.core.muxed, c.streams[k]), s.core.out[k];
      assert muxed + [] + queue == muxed + [queue[0]] + queue[1..];
    }
  }

  lemma DeliveredMux(c: Config, s: State, k: nat)
    requires Wired(c, s) && Phases(s) && MediaEnabled(s, Mux) && k < |c.streams|
    requires Wired(c, ApplyMedia(c, s, Mux))
    ensures Delivered(c, ApplyMedia(c, s, Mux), k) == Delivered(c, s, k)
  {
    assert Paired(c, s.todo[0]);
    OfStreamAppend(s.core.muxed, Muxed(s.todo[0].stream, s.packet.value), c.streams[k]);
    var muxed := OfStream(ApplyMedia(c, s, Mux).core.muxed, c.streams[k]);
    assert muxed == OfStream(s.core.muxed, c.streams[k]) + InFlight(s, k);
    assert muxed + [] == muxed;
  }

  /** Only a failed write to the muxer changes what came from a codec. */
  lemma DeliveredMedia(c: Config, s: State, d: MediaStep, k: nat)
    requires Wired(c, s) && Phases(s) && MediaEnabled(s, d) && k < |c.streams| && !d.MuxThrows?
    requires Wired(c, ApplyMedia(c, s, d))
    ensures Delivered(c, ApplyMedia(c, s, d), k) == Delivered(c, s, k)
    ensures ApplyMedia(c, s, d).produced == s.produced
  {
    if d.Receive? {
      DeliveredReceive(c, s, k);
    } else if d.Mux? {
      DeliveredMux(c, s, k);
    } else {
      var s' := ApplyMedia(c, s, d);
      assert s'.core.muxed == s.core.muxed && s'.core.out == s.core.out && s'.produced == s.produced;
      assert InFlight(s', k) == InFlight(s, k);
    }
  }

  ghost function Sent(s: State, t: nat, p: ProducerStep, k: nat): seq<Packet>
    requires t < |s.threads|
  {
    if p.Push? && s.threads[t].Holding? && s.threads[t].entry.codec == k then p.packets else []
  }

  lemma DeliveredPush(c: Config, s: State, t: nat, p: ProducerStep, k: nat)
    requires Wired(c, s) && ProducerEnabled(c, s, t, p) && p.Push? && k < |c.streams|
    requires Wired(c, ApplyProducer(c, s, t, p))
    ensures Delivered(c, ApplyProducer(c, s, t, p), k) == Delivered(c, s, k) + Sent(s, t, p, k)
    ensures ApplyProducer(c, s, t, p).produced[k] == s.produced[k] + Sent(s, t, p, k)
  {
    var muxed := OfStream(s.core.muxed, c.streams[k]) + InFlight(s, k);
    var sent := Sent(s, t, p, k);
    assert muxed + (s.core.out[k] + sent) == muxed + s.core.out[k] + sent;
  }

  lemma DeliveredProducer(c: Config, s: State, t: nat, p: ProducerStep, k: nat)
    requires Wired(c, s) && ProducerEnabled(c, s, t, p) && k < |c.streams|
    requires Wired(c, ApplyProducer(c, s, t, p))
    ensures Delivered(c, ApplyProducer(c, s, t, p), k) == Delivered(c, s, k) + Sent(s, t, p, k)
    ensures ApplyProducer(c, s, t, p).produced[k] == s.produced[k] + Sent(s, t, p, k)
  {
    if p.Push? {
      DeliveredPush(c, s, t, p, k);
    } else {
      var s' := ApplyProducer(c, s, t, p);
      assert s'.core.muxed == s.core.muxed && s'.core.out == s.core.out && s'.produced == s.produced;
      assert s'.packet == s.packet && s'.todo == s.todo;
    }
  }

  lemma DeliveredMain(c: Config, s: State, m: MainStep, k: nat)
    requires Wired(c, s) && MainEnabled(c, s, m) && k < |c.streams| && Wired(c, ApplyMain(c, s, m))
    ensures Delivered(c, ApplyMain(c, s, m), k) == Delivered(c, s, k)
    ensures ApplyMain(c, s, m).produced == s.produced
  {
    var s' := ApplyMain(c, s, m);
    assert s'.core == s.core && InFlight(s', k) == InFlight(s, k);
  }

  lemma CodecLedgerKept(c: Config, s: State, step: Step, k: nat)
    requires Wired(c, s) && Phases(s) && Enabled(c, s, step) && k < |c.streams| && CodecLedger(c, s, k)
    requires Wired(c, Apply(c, s, step)) && step != OfMedia(MuxThrows)
    ensures CodecLedger(c, Apply(c, s, step), k)
  {
    match step
    case OfProducer(t, p) => DeliveredProducer(c, s, t, p, k);
    case OfMain(m) => DeliveredMain(c, s, m, k);
    case OfMedia(d) => DeliveredMedia(c, s, d, k);
  }

  lemma FaultStays(c: Config, s: State, step: Step)
    requires Enabled(c, s, step)
    ensures !Apply(c, s, step).fault ==> !s.fault && step != OfMedia(MuxThrows)
  {
    match step
    case OfProducer(t, p) => assert ApplyProducer(c, s, t, p).fault == s.fault;
    case OfMain(_) =>
    case OfMedia(d) => assert ApplyMedia(c, s, d).fault == (s.fault || Throwing(d));
  }

  predicate Throwing(d: MediaStep) {
    d.InitThrows? || d.FillThrows? || d.ReceiveThrows? || d.MuxThrows? || d.PollThrows?
  }

  lemma PacketLedgerKept(c: Config, s: State, step: Step)
    requires Wired(c, s) && Phases(s) && Enabled(c, s, step) && PacketLedger(c, s)
    requires Wired(c, Apply(c, s, step))
    ensures PacketLedger(c, Apply(c, s, step))
  {
    var s' := Apply(c, s, step);
    FaultStays(c, s, step);
    if !s'.fault {
      forall k | 0 <= k < |c.streams| ensures CodecLedger(c, s', k) { CodecLedgerKept(c, s, step, k); }
    }
  }

  // ----- Every item is in exactly one place

  ghost function InList(es: seq<Entry>, x: nat): nat {
    if es == [] then 0 else (if es[0].item == x then 1 else 0) + InList(es[1..], x)
  }

  ghost function InHand(w: Producer, x: nat): nat {
    if w.Holding? && w.entry.item == x then 1 else 0
  }

  ghost function InHands(threads: seq<Producer>, x: nat): nat {
    if threads == [] then 0 else InHand(threads[0], x) + InHands(threads[1..], x)
  }

  /** How many times item `x` occurs in the free list, the client handles, the queue, the
      dispatcher's list and among the destroyed items. */
  ghost function Places(s: State, x: nat): nat {
    multiset(s.core.pool)[x] + InHands(s.threads, x) + InList(s.core.pending, x)
    + InList(s.drained, x) + InList(s.todo, x) + multiset(s.core.destroyed)[x]
  }

  ghost predicate Ownership(s: State) {
    forall x: nat :: Places(s, x) == if x < s.core.created then 1 else 0
  }

  lemma {:induction false} InListAppend(a: seq<Entry>, e: Entry, x: nat)
    ensures InList(a + [e], x) == InList(a, x) + if e.item == x then 1 else 0
  {
    if a != [] {
      assert (a + [e])[1..] == a[1..] + [e];
      InListAppend(a[1..], e, x);
    }
  }

  lemma {:induction false} InHandsUpdate(threads: seq<Producer>, t: nat, w: Producer, x: nat)
    requires t < |threads|
    ensures InHands(threads[t := w], x) + InHand(threads[t], x) == InHands(threads, x) + InHand(w, x)
  {
    if t == 0 {
      assert threads[0 := w][1..] == threads[1..];
    } else {
      assert threads[t := w][1..] == threads[1..][t - 1 := w];
      InHandsUpdate(threads[1..], t - 1, w, x);
    }
  }

  lemma FrontCount(pool: seq<nat>, x: nat)
    requires pool != []
    ensures multiset(pool)[x] == multiset(pool[1..])[x] + if pool[0] == x then 1 else 0
  {
    assert pool == [pool[0]] + pool[1..];
  }

  lemma BackCount(pool: seq<nat>, item: nat, x: nat)
    ensures multiset(pool + [item])[x] == multiset(pool)[x] + if item == x then 1 else 0
  {
  }

  /** A step moves an item from one place to another, or creates the item it puts somewhere. */
  ghost predicate Moves(s: State, s': State, x: nat) {
    && s.core.created <= s'.core.created
    && Places(s', x) == Places(s, x) + if s.core.created <= x < s'.core.created then 1 else 0
  }

  lemma ProducerMoves(c: Config, s: State, t: nat, p: ProducerStep, x: nat)
    requires ProducerEnabled(c, s, t, p)
    ensures Moves(s, ApplyProducer(c, s, t, p), x)
  {
    var s' := ApplyProducer(c, s, t, p);
    InHandsUpdate(s.threads, t, s'.threads[t], x);
    assert s'.threads == s.threads[t := s'.threads[t]];
    match p
    case GetHit(_, _) => FrontCount(s.core.pool, x);
    case DropHandle => BackCount(s.core.pool, s.threads[t].entry.item, x);
    case Push(_) => InListAppend(s.core.pending, s.threads[t].entry, x);
    case GetMiss(_, _) => case Allocate => case AllocateThrows => case Notify => case Exit =>
  }

  lemma ReturnMoves(c: Config, s: State, x: nat)
    requires MediaEnabled(s, ReturnOne)
    ensures Moves(s, ApplyMedia(c, s, ReturnOne), x)
  {
    if s.drained != [] {
      BackCount(s.core.pool, s.drained[0].item, x);
    } else {
      BackCount(s.core.pool, s.todo[0].item, x);
    }
  }

  lemma FillMoves(c: Config, s: State, x: nat)
    requires MediaEnabled(s, FillOne)
    ensures Moves(s, ApplyMedia(c, s, FillOne), x)
  {
    BackCount(s.core.pool, s.core.created, x);
  }

  lemma ClearMoves(c: Config, s: State, x: nat)
    requires MediaEnabled(s, Clear)
    ensures Moves(s, ApplyMedia(c, s, Clear), x)
  {
    assert multiset(s.core.destroyed + s.core.pool) == multiset(s.core.destroyed) + multiset(s.core.pool);
  }

  lemma AgainMoves(c: Config, s: State, x: nat)
    requires MediaEnabled(s, ReceiveAgain)
    ensures Moves(s, ApplyMedia(c, s, ReceiveAgain), x)
  {
    InListAppend(s.drained, s.todo[0], x);
  }

  /** The other steps of the media thread move no item, or the whole queue at once. */
  lemma QuietMoves(c: Config, s: State, d: MediaStep, x: nat)
    requires Phases(s) && MediaEnabled(s, d)
    requires !d.ReturnOne? && !d.FillOne? && !d.Clear? && !d.ReceiveAgain?
    ensures Moves(s, ApplyMedia(c, s, d), x)
  {
    var s' := ApplyMedia(c, s, d);
    assert s'.core.pool == s.core.pool && s'.core.destroyed == s.core.destroyed && s'.core.created == s.core.created;
    assert s'.threads == s.threads && s'.drained == s.drained;
    assert if d.Splice? then s.todo == [] && s'.todo == s.core.pending && s'.core.pending == []
           else s'.todo == s.todo && s'.core.pending == s.core.pending;
  }

  lemma MediaMoves(c: Config, s: State, d: MediaStep, x: nat)
    requires Phases(s) && MediaEnabled(s, d)
    ensures Moves(s, ApplyMedia(c, s, d), x)
  {
    if d.ReceiveAgain? { AgainMoves(c, s, x); }
    else if d.FillOne? { FillMoves(c, s, x); }
    else if d.ReturnOne? { ReturnMoves(c, s, x); }
    else if d.Clear? { ClearMoves(c, s, x); }
    else { QuietMoves(c, s, d, x); }
  }

  lemma MainMoves(c: Config, s: State, m: MainStep, x: nat)
    requires MainEnabled(c, s, m)
    ensures Moves(s, ApplyMain(c, s, m), x)
  {
    if m.FlushThrows? { InHandsUpdate(s.threads, 0, Idle, x); }
  }

  lemma StepMoves(c: Config, s: State, step: Step, x: nat)
    requires Phases(s) && Enabled(c, s, step)
    ensures Moves(s, Apply(c, s, step), x)
  {
    match step
    case OfProducer(t, p) => ProducerMoves(c, s, t, p, x);
    case OfMain(m) => MainMoves(c, s, m, x);
    case OfMedia(d) => MediaMoves(c, s, d, x);
  }

  lemma OwnershipKept(c: Config, s: State, step: Step)
    requires Phases(s) && Enabled(c, s, step) && Ownership(s)
    ensures Ownership(Apply(c, s, step))
  {
    forall x: nat { StepMoves(c, s, step, x); }
    OwnershipMoves(s, Apply(c, s, step));
  }

  lemma OwnershipMoves(s: State, s': State)
    requires Ownership(s) && forall x: nat :: Moves(s, s', x)
    ensures Ownership(s')
  {
    forall x: nat ensures Places(s', x) == if x < s'.core.created then 1 else 0 { assert Moves(s, s', x); }
  }

  // ----- Items are neither lost nor invented

  ghost function HandleCount(threads: seq<Producer>): nat {
    if threads == [] then 0 else (if threads[0].Holding? then 1 else 0) + HandleCount(threads[1..])
  }

  ghost predicate Conserved(s: State) {
    |s.core.pool| + HandleCount(s.threads) + |s.core.pending| + |s.drained| + |s.todo|
    == s.core.created - |s.core.destroyed|
  }

  lemma {:induction false} HandleCountUpdate(threads: seq<Producer>, t: nat, w: Producer)
    requires t < |threads|
    ensures HandleCount(threads[t := w])
         == HandleCount(threads) - (if threads[t].Holding? then 1 else 0) + if w.Holding? then 1 else 0
  {
    if t == 0 {
      assert threads[0 := w][1..] == threads[1..];
    } else {
      assert threads[t := w][1..] == threads[1..][t - 1 := w];
      HandleCountUpdate(threads[1..], t - 1, w);
    }
  }

  lemma ConservedMedia(c: Config, s: State, d: MediaStep)
    requires Phases(s) && MediaEnabled(s, d) && Conserved(s)
    ensures Conserved(ApplyMedia(c, s, d))
  {
    match d
    case OpenEvent => case InitThrows => case FillOne => case FillThrows => case FillDone =>
    case Wake => case ReadEvent =>
    case Splice => case Receive => case ReceiveAgain => case ReceiveThrows => case Mux => case MuxThrows =>
    case DrainDone => case ReturnOne => case ReturnDone =>
    case LeaveLoop => case PollThrows => case CloseEvent => case Clear =>
  }

  lemma ConservedProducer(c: Config, s: State, t: nat, p: ProducerStep)
    requires Phases(s) && Conserved(s) && ProducerEnabled(c, s, t, p)
    ensures Conserved(ApplyProducer(c, s, t, p))
  {
    var s' := ApplyProducer(c, s, t, p);
    HandleCountUpdate(s.threads, t, s'.threads[t]);
    assert s'.threads == s.threads[t := s'.threads[t]];
    match p
    case GetHit(_, _) => case GetMiss(_, _) => case Allocate => case AllocateThrows => case DropHandle =>
    case Push(_) => case Notify => case Exit =>
  }

  lemma ConservedKept(c: Config, s: State, step: Step)
    requires Phases(s) && Enabled(c, s, step) && Conserved(s)
    ensures Conserved(Apply(c, s, step))
  {
    match step
    case OfProducer(t, p) => ConservedProducer(c, s, t, p);
    case OfMain(m) => if m.FlushThrows? { HandleCountUpdate(s.threads, 0, Idle); }
    case OfMedia(d) => ConservedMedia(c, s, d);
  }
}
