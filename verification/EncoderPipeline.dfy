/** The encoder pipeline as a step relation: any number of producer threads, the main thread's
    shutdown sequence and the media thread that runs `EncoderService`. One step is one block that
    the program executes atomically (under a mutex, or on data only one thread can see). */
module EncoderPipeline {
  import opened Common

  /** The identity of one encoded packet. */
  type Packet = nat

  /** A packet handed to the muxer, stamped with a stream index. */
  datatype Muxed = Muxed(stream: nat, packet: Packet)

  /** A `StreamPoll`: the pool item (numbered by allocation), its codec and stream, and whether its
      frame is null (a flush). */
  datatype Entry = Entry(item: nat, codec: nat, stream: nat, flush: bool)

  /** The codecs are numbered; codec `k` always travels with stream `streams[k]`. */
  datatype Config = Config(streams: seq<nat>, video: nat, audio: nat, initialPool: nat)

  predicate ValidConfig(c: Config) {
    && c.video < |c.streams|
    && c.audio < |c.streams|
    && forall i, j :: 0 <= i < j < |c.streams| ==> c.streams[i] != c.streams[j]
  }

  // ----- The data shared between threads, and the atomic blocks that change it

  /** `pool`: the pool's free list. `out[k]`: packets codec `k` can deliver. `counter`: the eventfd.
      `created`/`destroyed`: how many items were ever created, and which were destroyed. */
  datatype Core = Core(
    pool: seq<nat>,
    pending: seq<Entry>,
    out: seq<seq<Packet>>,
    counter: nat,
    muxed: seq<Muxed>,
    created: nat,
    destroyed: seq<nat>)

  function TakeFromPool(k: Core): Core
    requires k.pool != []
  {
    k.(pool := k.pool[1..])
  }

  function CreateItem(k: Core): Core {
    k.(created := k.created + 1)
  }

  function PutBack(k: Core, item: nat): Core {
    k.(pool := k.pool + [item])
  }

  /** `avcodec_send_frame` makes `packets` available (none if it refuses the frame), and the entry
      is queued, both inside the critical section of `write_frame`. */
  function SendAndQueue(k: Core, e: Entry, packets: seq<Packet>): Core
    requires e.codec < |k.out|
  {
    k.(out := k.out[e.codec := k.out[e.codec] + packets], pending := k.pending + [e])
  }

  function TakePending(k: Core): Core {
    k.(pending := [])
  }

  function ReceivePacket(k: Core, codec: nat): Core
    requires codec < |k.out| && k.out[codec] != []
  {
    k.(out := k.out[codec := k.out[codec][1..]])
  }

  function WritePacket(k: Core, m: Muxed): Core {
    k.(muxed := k.muxed + [m])
  }

  function ClearPool(k: Core): Core {
    k.(pool := [], destroyed := k.destroyed + k.pool)
  }

  // ----- Threads

  datatype Producer =
    | Idle
    | Missed(codec: nat, flush: bool)   // found the pool empty, must allocate
    | Holding(entry: Entry)             // owns an item handle
    | Notifying(late: bool)             // pushed an entry (`late`: after the eventfd was opened), has yet to bump it
    | Exited

  /** The main thread in `run_loop`, after its own event loop. Thread 0 is the main thread. */
  datatype MainPhase = Running | Joining | FlushVideo | FlushAudio | Stopping | JoiningMedia | Returned

  /** The media thread: `Context::run` around `EncoderService`. `last` marks the dispatch made by
      `on_uninit`; `threw` that the dispatch is unwinding. */
  datatype Media =
    | Starting
    | Filling(left: nat)
    | Polling
    | Reading
    | Splicing(last: bool)
    | Draining(last: bool)
    | Returning(last: bool, threw: bool)
    | Closing
    | Clearing
    | Done

  /** `drained + todo` is the local list of `dispatch`; `packet` is received but not yet muxed.
      The other fields are history: the first `stale` queued entries were pushed while no eventfd
      was open; `pushed` and `completed` are the entries in push order and those drained to EAGAIN;
      `produced` is every packet each codec ever made available; `fault` records that a dispatch,
      the service's initialisation or a flush threw. */
  datatype State = State(
    core: Core,
    open: bool,
    stop: bool,
    threads: seq<Producer>,
    main: MainPhase,
    media: Media,
    drained: seq<Entry>,
    todo: seq<Entry>,
    packet: Option<Packet>,
    stale: nat,
    pushed: seq<Entry>,
    completed: seq<Entry>,
    produced: seq<seq<Packet>>,
    fault: bool)

  function Init(c: Config, producers: nat): State {
    var silent := seq(|c.streams|, _ => []);
    State(Core([], [], silent, 0, [], 0, []), false, false, seq(producers + 1, _ => Idle),
          Running, Starting, [], [], None, 0, [], [], silent, false)
  }

  /** `Encoder::prepare_frame` and `EncoderService::write_frame` on one thread. */
  datatype ProducerStep =
    | GetHit(codec: nat, flush: bool)
    | GetMiss(codec: nat, flush: bool)
    | Allocate
    | AllocateThrows
    | DropHandle
    | Push(packets: seq<Packet>)
    | Notify
    | Exit

  /** `run_loop` once its own event loop has ended. */
  datatype MainStep = JoinProducers | FlushThrows | RequestStop | JoinMedia

  datatype MediaStep =
    | OpenEvent | InitThrows | FillOne | FillThrows | FillDone
    | Wake | ReadEvent | Splice
    | Receive | ReceiveAgain | ReceiveThrows | Mux | MuxThrows | DrainDone
    | ReturnOne | ReturnDone
    | LeaveLoop | PollThrows | CloseEvent | Clear

  datatype Step = OfProducer(t: nat, p: ProducerStep) | OfMain(m: MainStep) | OfMedia(d: MediaStep)

  /** Which frames thread `t` may ask for: while it runs, ordinary ones; the main thread asks for
      the two flush entries, in order, once the producers are joined. */
  predicate MayPrepare(c: Config, s: State, t: nat, codec: nat, flush: bool)
    requires t < |s.threads|
  {
    && s.threads[t].Idle? && codec < |c.streams|
    && if t == 0 && s.main == FlushVideo then flush && codec == c.video
       else if t == 0 && s.main == FlushAudio then flush && codec == c.audio
       else !flush && (t == 0 ==> s.main == Running)
  }

  predicate HasPacket(k: Core, codec: nat) {
    codec < |k.out| && k.out[codec] != []
  }

  predicate ProducerEnabled(c: Config, s: State, t: nat, p: ProducerStep) {
    && t < |s.threads|
    && var w := s.threads[t];
       match p
       case GetHit(codec, flush) => MayPrepare(c, s, t, codec, flush) && s.core.pool != []
       case GetMiss(codec, flush) => MayPrepare(c, s, t, codec, flush) && s.core.pool == []
       case Allocate => w.Missed? && w.codec < |c.streams|
       case AllocateThrows => w.Missed? && (t == 0 ==> s.main == Running)
       case DropHandle => w.Holding? && (t == 0 ==> s.main == Running)
       case Push(_) => w.Holding? && w.entry.codec < |s.core.out| == |s.produced|
       case Notify => w.Notifying?
       case Exit => w.Idle? && (t == 0 ==> s.main == Running)
  }

  predicate MainEnabled(c: Config, s: State, m: MainStep) {
    match m
    case JoinProducers => s.main == Joining && forall t :: 0 < t < |s.threads| ==> s.threads[t].Exited?
    case FlushThrows =>
      && (s.main == FlushVideo || s.main == FlushAudio)
      && |s.threads| > 0 && (s.threads[0].Idle? || s.threads[0].Missed?)
    case RequestStop => s.main == Stopping
    case JoinMedia => s.main == JoiningMedia && s.media == Done
  }

  predicate MediaEnabled(s: State, d: MediaStep) {
    match d
    case OpenEvent => s.media == Starting
    case InitThrows => s.media == Starting
    case FillOne => s.media.Filling? && s.media.left > 0
    case FillThrows => s.media.Filling? && s.media.left > 0
    case FillDone => s.media == Filling(0)
    case Wake => s.media == Polling && s.core.counter > 0
    case ReadEvent => s.media == Reading
    case Splice => s.media.Splicing?
    case Receive => s.media.Draining? && s.packet.None? && s.todo != [] && HasPacket(s.core, s.todo[0].codec)
    case ReceiveAgain => s.media.Draining? && s.packet.None? && s.todo != [] && !HasPacket(s.core, s.todo[0].codec)
    case ReceiveThrows => s.media.Draining? && s.packet.None? && s.todo != []
    case Mux => s.media.Draining? && s.packet.Some? && s.todo != []
    case MuxThrows => s.media.Draining? && s.packet.Some? && s.todo != []
    case DrainDone => s.media.Draining? && s.todo == []
    case ReturnOne => s.media.Returning? && (s.drained != [] || s.todo != [])
    case ReturnDone => s.media.Returning? && s.drained == [] && s.todo == []
    case LeaveLoop => s.media == Polling && s.stop
    case PollThrows => s.media == Polling
    case CloseEvent => s.media == Closing
    case Clear => s.media == Clearing
  }

  /** `Encoder::prepare_frame` fills in the codec and the stream that belongs to it. */
  function Prepared(c: Config, item: nat, codec: nat, flush: bool): Entry
    requires codec < |c.streams|
  {
    Entry(item, codec, c.streams[codec], flush)
  }

  function ApplyProducer(c: Config, s: State, t: nat, p: ProducerStep): State
    requires ProducerEnabled(c, s, t, p)
  {
    var w := s.threads[t];
    match p
    case GetHit(codec, flush) =>
      s.(core := TakeFromPool(s.core), threads := s.threads[t := Holding(Prepared(c, s.core.pool[0], codec, flush))])
    case GetMiss(codec, flush) =>
      s.(threads := s.threads[t := Missed(codec, flush)])
    case Allocate =>
      s.(core := CreateItem(s.core),
         threads := s.threads[t := Holding(Prepared(c, s.core.created, w.codec, w.flush))])
    case AllocateThrows =>
      s.(threads := s.threads[t := Idle])
    case DropHandle =>
      s.(core := PutBack(s.core, w.entry.item), threads := s.threads[t := Idle])
    case Push(packets) =>
      var e := w.entry;
      s.(core := SendAndQueue(s.core, e, packets),
         threads := s.threads[t := Notifying(s.open)],
         stale := if s.open then s.stale else |s.core.pending| + 1,
         pushed := s.pushed + [e],
         produced := s.produced[e.codec := s.produced[e.codec] + packets])
    case Notify =>
      s.(core := if s.open then s.core.(counter := s.core.counter + 1) else s.core,
         threads := s.threads[t := Idle],
         main := if t == 0 && s.main == FlushVideo then FlushAudio
                 else if t == 0 && s.main == FlushAudio then Stopping else s.main)
    case Exit =>
      if t == 0 then s.(main := Joining) else s.(threads := s.threads[t := Exited])
  }

  function ApplyMain(c: Config, s: State, m: MainStep): State
    requires MainEnabled(c, s, m)
  {
    match m
    case JoinProducers => s.(main := FlushVideo)
    case FlushThrows => s.(main := Stopping, threads := s.threads[0 := Idle], fault := true)
    case RequestStop => s.(main := JoiningMedia, stop := true)
    case JoinMedia => s.(main := Returned)
  }

  /** Where a dispatch goes once its list is back in the pool. */
  function AfterDispatch(last: bool, threw: bool): Media {
    if threw then (if last then Done else Closing)
    else if last then Clearing else Polling
  }

  function ApplyMedia(c: Config, s: State, d: MediaStep): State
    requires MediaEnabled(s, d)
  {
    match d
    case OpenEvent => s.(media := Filling(c.initialPool), open := true)
    case InitThrows => s.(media := Done, fault := true)
    case FillOne =>
      s.(core := PutBack(CreateItem(s.core), s.core.created), media := Filling(s.media.left - 1))
    case FillThrows => s.(media := Done, fault := true)
    case FillDone => s.(media := Polling)
    case Wake => s.(media := Reading)
    case ReadEvent => s.(core := s.core.(counter := 0), media := Splicing(false))
    case Splice => s.(core := TakePending(s.core), media := Draining(s.media.last), todo := s.core.pending, stale := 0)
    case Receive =>
      var codec := s.todo[0].codec;
      s.(core := ReceivePacket(s.core, codec), packet := Some(s.core.out[codec][0]))
    case ReceiveAgain =>
      s.(drained := s.drained + [s.todo[0]], todo := s.todo[1..], completed := s.completed + [s.todo[0]])
    case ReceiveThrows => s.(media := Returning(s.media.last, true), fault := true)
    case Mux =>
      s.(core := WritePacket(s.core, Muxed(s.todo[0].stream, s.packet.value)), packet := None)
    case MuxThrows => s.(media := Returning(s.media.last, true), packet := None, fault := true)
    case DrainDone => s.(media := Returning(s.media.last, false))
    case ReturnOne =>
      if s.drained != [] then
        s.(core := PutBack(s.core, s.drained[0].item), drained := s.drained[1..])
      else
        s.(core := PutBack(s.core, s.todo[0].item), todo := s.todo[1..])
    case ReturnDone => s.(media := AfterDispatch(s.media.last, s.media.threw))
    case LeaveLoop => s.(media := Closing)
    case PollThrows => s.(media := Closing, fault := true)
    case CloseEvent => s.(media := Splicing(true), open := false)
    case Clear => s.(core := ClearPool(s.core), media := Done)
  }

  predicate Enabled(c: Config, s: State, step: Step) {
    match step
    case OfProducer(t, p) => ProducerEnabled(c, s, t, p)
    case OfMain(m) => MainEnabled(c, s, m)
    case OfMedia(d) => MediaEnabled(s, d)
  }

  function Apply(c: Config, s: State, step: Step): State
    requires Enabled(c, s, step)
  {
    match step
    case OfProducer(t, p) => ApplyProducer(c, s, t, p)
    case OfMain(m) => ApplyMain(c, s, m)
    case OfMedia(d) => ApplyMedia(c, s, d)
  }

  /** Executing `steps` from `s` is possible and ends in `s'`. */
  ghost predicate Run(c: Config, s: State, steps: seq<Step>, s': State)
    decreases |steps|
  {
    if steps == [] then s' == s
    else Enabled(c, s, steps[0]) && Run(c, Apply(c, s, steps[0]), steps[1..], s')
  }

  ghost predicate Reachable(c: Config, s: State) {
    exists producers: nat, steps: seq<Step> :: Run(c, Init(c, producers), steps, s)
  }
}
