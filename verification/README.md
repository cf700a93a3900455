# Shadow Cast: a verified model of its pipelines

Shadow Cast records the screen and the sound of a desktop session. This project models the code
that moves frames, bytes and time between its threads, and proves what that code guarantees.

- **Encoder pipeline.** Producer threads take a pool item, send its frame to a codec, queue the item
  and bump an eventfd. The media thread reads the eventfd, splices the queue out, drains each codec,
  muxes the packets and returns the items to the pool. `run_loop` joins the producers, flushes both
  codecs, stops the media thread and joins it. `EncoderPipeline` is a step relation for any number of
  producers in which one step is one block the program executes atomically. `EncoderSafety` proves
  what every step keeps, `EncoderShutdown` what follows for every reachable state and for the end of
  `run_loop`, `EncoderOrder` what is left of the order when a dispatch throws, and `EncoderLeaks`
  which runs destroy every item. `IntrusiveList`, `Pool` and `EncoderService` are the same code on the heap, pointer by
  pointer; `EncoderService.View()` maps the heap to the shared data of the step relation, and each
  method is proved to be the blocks it stands for; `EncoderRefinement` proves these blocks to be the
  threads' steps. `EncoderDispatch` connects a whole dispatch, also one
  that throws, with the media thread's single steps. `Sequences` holds the sequence operations that
  the list refines, and `SpliceTurns` follows `splice` turn by turn on bare links.
- **Audio pipeline.** PipeWire's thread appends captured bytes to one buffer per channel and
  announces frames through an eventfd; the audio thread cuts frames of a fixed number of samples and
  stamps them. `AudioPipeline` is the step relation, `AudioService` the objects.
- **Event loop.** `Timers` and `Context`: periodic timers under arbitrary wake-up times, the dispatch
  calls the loop makes, and the bracketing of services by init and uninit. `StopRequest` is a step
  relation for `request_stop` against the sleeping loop.
- **Algorithms.** `Base64`, over the 24-bit groups of `Base64Groups`, against section 4 of RFC 4648;
  `Histogram` on the binary search of `Search`; `SampleFormat`.

A codec is abstract: sending a frame makes any finite sequence of packets available, or none if the
frame is refused; receiving takes the first packet, or answers EAGAIN, or fails. The result of
`avcodec_send_frame` is discarded by the program, so the results speak of the packets a codec makes
available, not of the frames it accepts. A dispatch, the poll before it, the initialisation of the
service and a flush may throw; `fault` records it. So may the allocation of an item by a producer.

Three findings:

- `notify` is given all complete frames that are buffered, not the newly completed ones, and an
  eventfd adds. `TwoQuantaBeforeDispatch` gives, for every format, frame size and pair of quanta of
  which the first holds a frame, a run that fails the check in `dispatch_chunks`.
  `ContractCheck` says exactly which runs are affected: those in which a call of `on_process` finds
  a complete frame still buffered.
- A dispatch that throws inside `on_uninit` skips `pool_.clear()`. `PoolCanStayFull` gives, for every
  configuration, a run in which `run_loop` returns and no item was destroyed. `DestroyedExactly` says
  for every run whether all items are destroyed by then: exactly if none was created, or the pool is
  cleared while no item is out and none is created afterwards. `StoppedThread` puts it in terms of the
  last dispatch. Those in the pool are left to its destructor; those in the queue are freed by nobody.
  `LeaksExactly`: once the pool is gone, all items are destroyed exactly if every push was followed by
  a splice. `FlushesCanLeak` gives, for every configuration, a run in which both flush entries stay
  queued.
- Splicing a range within one list, which no caller in the program does, works exactly for some
  positions (`SpliceWithinExactly`). With the range from `i` up to `j` and the target in front of
  position `b`: it works if `b < i`, if `b > j`, if the range is empty, and for `b == j == i + 1`. In
  front of its first element (`b == i`) the first turn makes that element its own neighbour, the loop
  ends and the range is lost; in front of its second (`b == i + 1 < j`) the same happens one turn later.
  From `b == i + 2` up to `b == j` the loop never ends.

`dafny verify dfyconfig.toml` checks the whole project.

## Model

| member | source | states |
|---|---|---|
| `EncoderShutdown.PacketsAreNamed` | src/services/encoder_service.cpp:28-109 | No stranded packets: in every reachable state in which nothing threw, each codec that can deliver a packet is named by an entry that is queued or spliced out and not yet drained; with both lists empty all codecs are empty |
| `EncoderShutdown.WakeupIsDue` | src/services/encoder_service.cpp:30-76 | No lost wake-up: while an entry pushed after the eventfd was opened is queued, the counter is positive, or a writer has yet to bump it, or the dispatcher is between its read and its splice |
| `EncoderShutdown.OneOwner` | src/utils/pool.hpp:103-174 | In every reachable state, also while a dispatch unwinds, each created item is in exactly one of free list, client handle, queue, dispatcher's list and destroyed items; live items equal creations minus destructions |
| `EncoderShutdown.FifoDelivery` | src/services/encoder_service.cpp:31-101 | Entries finish in the order they were pushed, and the packets muxed on a stream are a prefix of what its codec produced |
| `EncoderOrder.PacketsInOrder` | src/services/encoder_service.cpp:84-107 | In every run, also one that throws, the packets muxed on a stream are a subsequence of what its codec produced, and exactly as many are missing as writes of them failed; nothing is missing if and only if no write failed |
| `EncoderOrder.EntriesInOrder` | src/services/encoder_service.cpp:69-80 | In every run the entries drained are a subsequence of those pushed |
| `EncoderOrder.PacketsAreTraced` | src/services/encoder_service.cpp:28-107 | In every run a codec that can deliver a packet is named by an entry queued or not yet drained, or was named by the rest of a dispatch that threw and has not been found empty since |
| `EncoderOrder.MissingKept` | src/services/encoder_service.cpp:84-107 | Every step keeps that account; only a failed write adds to what is missing |
| `EncoderShutdown.CleanShutdown` | src/main.cpp:138-165 | When `run_loop` returns and nothing threw: every entry was dispatched, the two flushes last; the queue and all codecs are empty; each stream got all its codec's packets in order; every item was destroyed exactly once |
| `EncoderLeaks.DestroyedExactly` | src/services/encoder_service.cpp:52-61 | For every run: all items are destroyed if and only if none was created, or the pool is cleared while no item is with a client or queued and none is created afterwards |
| `EncoderLeaks.StoppedThread` | src/services/encoder_service.cpp:52-61 | If the media thread left its loop because it was stopped, all items are destroyed when `run_loop` returns if and only if the last dispatch does not throw |
| `EncoderLeaks.PoolCanStayFull` | src/services/encoder_service.cpp:52-61 | For every configuration, a run from the start in which the last dispatch throws, `run_loop` returns, the queue is empty and no item was destroyed |
| `EncoderLeaks.QueuedItemsLeak` | src/utils/pool.hpp:96 | When `run_loop` has returned and the pool's destructor has run, the items never destroyed number those still queued |
| `EncoderLeaks.LeaksExactly` | src/utils/pool.hpp:96 | Then all items are destroyed if and only if every push in the run was followed by a splice |
| `EncoderLeaks.FlushesCanLeak` | src/services/encoder_service.cpp:41-46 | For every configuration, a run in which the service's initialisation throws and `run_loop` returns with both flush entries queued, nothing drained and nothing muxed |
| `EncoderLeaks.AllDestroyedMeans` | src/utils/pool.hpp:163-174 | As many items were destroyed as created if and only if each single item was |
| `EncoderShutdown.LeakedItems` | src/services/encoder_service.cpp:52-61 | Whatever threw, each item that outlives `run_loop` is in the pool's free list or still queued |
| `EncoderShutdown.ShutdownFinishes` | src/main.cpp:164-165 | Once the media thread was told to stop, no run is longer than a bound computed from the state, and no run is stuck before `run_loop` returns |
| `EncoderShutdown.StepCounts` | src/services/encoder_service.cpp:63-109 | In that phase every step of every thread lowers the bound |
| `EncoderShutdown.StepKeepsInv` | src/services/encoder_service.cpp:28-109 | Every step of every thread keeps all the invariants |
| `EncoderShutdown.StopOrderKept` | src/main.cpp:138-165 | Every step keeps the stop order: producers exit before the flushes, the flushes come before the stop, the last dispatch after it |
| `EncoderShutdown.FlushOrderKept` | src/main.cpp:154-157 | Every step keeps: past the flushes, the history ends with the flush of the video codec and then of the audio codec |
| `EncoderSafety.NoStrandedKept` | src/services/encoder_service.cpp:80-107 | Every step keeps the naming of codecs that hold packets |
| `EncoderSafety.NoLostWakeupKept` | src/services/encoder_service.cpp:37-76 | Every step keeps the wake-up invariant |
| `EncoderSafety.InOrderKept` | src/services/encoder_service.cpp:69-80 | Every step keeps: drained, then spliced out, then queued entries are all entries in push order |
| `EncoderSafety.PacketLedgerKept` | src/services/encoder_service.cpp:80-107 | Every step keeps, for each codec: muxed, then in flight, then waiting packets are all packets it produced, in order |
| `EncoderSafety.DeliveredMedia` | src/services/encoder_service.cpp:84-107 | No step of the media thread but a failed write changes the sequence muxed, in flight, waiting |
| `EncoderSafety.OwnershipKept` | src/utils/pool.hpp:103-227 | Every step keeps each item in exactly one place |
| `EncoderSafety.ConservedKept` | src/utils/pool.hpp:103-174 | Every step keeps the number of live items equal to creations minus destructions |
| `EncoderDispatch.DispatchAlone` | src/services/encoder_service.cpp:69-109 | The media thread's single steps, undisturbed, compute `Dispatched`: queue emptied, each named codec drained to its stream, items back in the pool in order |
| `EncoderDispatch.DispatchBrokenAlone` | src/services/encoder_service.cpp:69-109 | Every outcome that `DispatchBroken` allows a throwing dispatch is a run of the media thread's single steps |
| `EncoderDispatch.DispatchKeeps` | src/services/encoder_service.cpp:69-109 | A dispatch, throwing or not, changes nothing but codecs, muxer, queue and pool: the queue is in the pool, and what was muxed before stays muxed |
| `EncoderDispatch.DrainCodecAlone` | src/services/encoder_service.cpp:84-107 | Receiving and muxing until EAGAIN moves all packets of one codec, in order, to its stream |
| `EncoderRefinement.WriteFrameIsSteps` | src/services/encoder_service.cpp:28-39 | What `WriteFrame` leaves is what a producer's push and then its write to the eventfd leave in the step relation |
| `EncoderRefinement.PrepareIsSteps` | src/services/encoder.cpp:28-35 | What `PrepareFrame` leaves is a hit in the pool, or a miss and then an allocation |
| `EncoderRefinement.ReadIsStep` | src/services/encoder_service.cpp:65-67 | The read of the eventfd is the media thread's step; after the close there is nothing to read |
| `EncoderRefinement.InitIsSteps` | src/services/encoder_service.cpp:41-50 | What `OnInit` leaves is the eventfd's opening and one fill step for each item, up to the one that throws |
| `EncoderRefinement.UninitIsSteps` | src/services/encoder_service.cpp:52-61 | What `OnUninit` leaves without an exception is the close, the last dispatch's steps and the clearing |
| `EncoderRefinement.AfterGoodDispatch` | src/services/encoder_service.cpp:63-109 | A dispatch that does not throw goes back to the poll, the last one to the clearing |
| `EncoderRefinement.ThrowEndsPolling` | src/services/context.cpp:128-191 | After a dispatch that throws the media thread never polls again |
| `EncoderService.EncoderService.PrepareFrame` | src/services/encoder.cpp:28-35 | The item is the first of the free list or a new one, is owned by nobody else, and names the codec and stream; if constructing a new one throws, nothing changes |
| `EncoderService.EncoderService.WriteFrame` | src/services/encoder_service.cpp:28-39 | The packets join what the item's codec can deliver, the item joins the end of the queue, and the eventfd goes up by one if it is open |
| `EncoderService.EncoderService.Flush` | src/services/encoder.cpp:20-26 | Prepare and write composed, with an entry marked as a flush; if there is no item to be had it throws and changes nothing |
| `EncoderService.EncoderService.DrainOne` | src/services/encoder_service.cpp:83-107 | Without an exception the codec is emptied onto its stream in order; with one, a prefix was muxed and at most one packet more was lost |
| `EncoderService.EncoderService.TakeQueue` | src/services/encoder_service.cpp:69-76 | The whole queue moves, in order, to a list of its own |
| `EncoderService.EncoderService.DrainList` | src/services/encoder_service.cpp:80-108 | Without an exception every entry's codec is drained in order; with one, a prefix of the entries was drained, one codec was cut short and all others are untouched |
| `EncoderService.EncoderService.Dispatch` | src/services/encoder_service.cpp:63-109 | Without an exception the new state is `Dispatched`; with one, a prefix of the queue was drained, one codec was cut short with at most one packet lost, and all others are untouched. Either way the whole queue is in the pool, in order, and nothing muxed is taken back |
| `EncoderService.EncoderService.OnInit` | src/services/encoder_service.cpp:41-50 | 16 new items are at the end of the pool and the eventfd is open, zero and registered; without an eventfd nothing changes; if constructing an item throws, those before it are in the pool and the eventfd stays open, unregistered |
| `EncoderService.EncoderService.OnUninit` | src/services/encoder_service.cpp:52-61 | The eventfd is closed and the queue is empty; without an exception the queue is dispatched and every pooled item is destroyed; with one, the state is that of a throwing dispatch and nothing is destroyed |
| `IntrusiveList.List.constructor` | src/utils/intrusive_list.hpp:24 | A new list is a well-formed empty circle |
| `IntrusiveList.List.Empty` | src/utils/intrusive_list.hpp:161-164 | True exactly for the empty sequence |
| `IntrusiveList.List.Begin` | src/utils/intrusive_list.hpp:268-271 | The first element, or the end |
| `IntrusiveList.List.Next` | src/utils/intrusive_list.hpp:126-130 | The following element, or the end |
| `IntrusiveList.List.PushFront` | src/utils/intrusive_list.hpp:204-211 | Keeps the circle; prepends to the sequence; changes only links of this list's nodes and the item |
| `IntrusiveList.List.PushBack` | src/utils/intrusive_list.hpp:213-220 | Keeps the circle; appends to the sequence |
| `IntrusiveList.List.PopBack` | src/utils/intrusive_list.hpp:222-230 | Keeps the circle; drops the last element |
| `IntrusiveList.List.PopFront` | src/utils/intrusive_list.hpp:232-239 | Keeps the circle; drops the first element |
| `IntrusiveList.List.Erase` | src/utils/intrusive_list.hpp:166-176 | Keeps the circle; removes exactly that element and returns the iterator after it |
| `IntrusiveList.List.Insert` | src/utils/intrusive_list.hpp:241-249 | Keeps the circle; inserts in front of the given position, whose iterator stays valid |
| `IntrusiveList.List.Splice` | src/utils/intrusive_list.hpp:251-261 | Terminates; cuts the subsequence from one list and inserts it, in order, in the other; both stay well formed and no other node is touched |
| `IntrusiveList.List.SpliceAll` | src/utils/intrusive_list.hpp:263-266 | The other list ends empty and all its elements are in front of the position |
| `IntrusiveList.List.SpliceWithin` | src/utils/intrusive_list.hpp:251-261 | Within one list, in front of an element before the range or behind the element after it, or for a range of at most one element: the range moves in order to the position; the list stays well formed and keeps its nodes |
| `IntrusiveList.List.TurnWithin` | src/utils/intrusive_list.hpp:255-260 | Any number of turns of the loop, wherever the range is to go, write the links that `Turns` computes, also once they no longer make a list |
| `IntrusiveList.TurnOnce` | src/utils/intrusive_list.hpp:257-259 | One turn, with the six writes of `erase` and `insert` in order, on arbitrary links |
| `SpliceTurns.SpliceWithinExactly` | src/utils/intrusive_list.hpp:251-261 | Within one list the loop ends with a well-formed list of all elements if and only if `b < i`, `b > j`, `i == j` or `b == j == i + 1` |
| `SpliceTurns.MovesRange` | src/utils/intrusive_list.hpp:251-261 | For those positions it ends after as many turns as the range has elements, and the list is the rotated one |
| `SpliceTurns.OntoItself` | src/utils/intrusive_list.hpp:257-259 | In front of the first element the first turn makes that element its own predecessor and successor |
| `SpliceTurns.LosesRange` | src/utils/intrusive_list.hpp:255-260 | In front of the first element the loop ends after as many turns as the range has elements, and no well-formed list holds all elements |
| `SpliceTurns.IdleTurn` | src/utils/intrusive_list.hpp:257-259 | In front of the second element of a longer range the first turn changes nothing and steps on to that element |
| `SpliceTurns.LosesRangeLater` | src/utils/intrusive_list.hpp:255-260 | In front of the second element of a longer range the loop ends likewise, and no well-formed list holds all elements |
| `SpliceTurns.NeverEnds` | src/utils/intrusive_list.hpp:255-260 | In front of the third element or any later one, up to the one after the range, no number of turns brings the iterator to the end |
| `IntrusiveList.List.SpinWithin` | src/utils/intrusive_list.hpp:255-260 | For the same positions, on the heap: a turn keeps the list well formed and the iterator at the same position, short of the end |
| `Sequences.RotatedPieces` | src/utils/intrusive_list.hpp:251-261 | Moving a range within a sequence is cutting it out and inserting it, in order, at the position |
| `IntrusiveList.Hook` | src/utils/intrusive_list.hpp:243-247 | The four writes turn a linked ring into the linked ring that contains the item, and touch no other link |
| `IntrusiveList.Unhook` | src/utils/intrusive_list.hpp:170-175 | The two writes turn a linked ring into the linked ring without the element, and touch no other link |
| `IntrusiveList.Hooked` | src/utils/intrusive_list.hpp:241-248 | Setting the four links around an item turns a linked ring into the linked ring that contains it |
| `IntrusiveList.Unhooked` | src/utils/intrusive_list.hpp:172-173 | Bridging an element turns a linked ring into the linked ring without it |
| `Pool.Pool.Get` | src/utils/pool.hpp:103-128 | The first free item, reset, or a new one; it leaves the free list and is owed to the pool; if constructing a new one throws, nothing changes |
| `Pool.Pool.Put` | src/utils/pool.hpp:134-138 | An owed item joins the end of the free list |
| `Pool.Pool.Fill` | src/utils/pool.hpp:142-156 | Exactly `n` new blank items are created and appended, or those before the one whose construction throws |
| `Pool.Pool.Clear` | src/utils/pool.hpp:163-174 | Every free item is destroyed, in order, none twice |
| `Pool.Pool.ReturnAll` | src/utils/pool.hpp:220-227 | The guard's destructor returns a whole list to the pool in order and leaves it empty |
| `AudioPipeline.AudioEndToEnd` | src/services/audio_service.cpp:229-326 | For every run and channel: the bytes that the calls of `on_process` brought for the channel, in order, are those of all frames followed by those still buffered |
| `AudioPipeline.FrameIsSlice` | src/handlers/audio_chunk_writer.cpp:50-66 | Frame `k` has timestamp `k * frameSize` and carries slice `k` of the bytes brought for each channel |
| `AudioPipeline.CapturedIsBrought` | src/services/audio_service.cpp:229-238 | Each channel's captured bytes are the concatenation of its buffers over the calls of `on_process` |
| `AudioPipeline.FramesAreCovered` | src/services/audio_service.cpp:214-326 | In every reachable state all channel buffers are equally long and hold the counted samples, so neither the copy nor `consume` leaves the buffer |
| `AudioPipeline.WholeSamplesStayExact` | src/services/audio_service.cpp:214-240 | If every quantum holds whole samples, the buffers hold exactly the counted samples |
| `AudioPipeline.NotificationLedger` | src/services/audio_service.cpp:240-326 | Frames announced, claimed or dropped by an exception exceed the complete frames buffered by exactly the frames that calls of `on_process` found still buffered; until an exception no complete frame is unannounced |
| `AudioPipeline.LedgerStep` | src/services/audio_service.cpp:240-245 | `on_process` raises the excess by the complete frames it finds; consumer steps leave it unchanged |
| `AudioPipeline.ConsumerOutcome` | src/services/audio_service.cpp:290-328 | The consumer left alone takes every complete frame, or as many as the listener lets it before it throws; if it does not throw, the check then fails exactly if the excess is positive, else the consumer goes idle |
| `AudioPipeline.ConsumeIsRun` | src/services/audio_service.cpp:290-328 | The consumer left alone is a run of the step relation without captures |
| `AudioPipeline.ContractCheck` | src/services/audio_service.cpp:242-306 | The check never fails in a run in which no `on_process` finds a complete frame; unless the listener has thrown, the consumer left alone fails it if and only if some `on_process` did |
| `AudioPipeline.TwoQuantaBeforeDispatch` | src/services/audio_service.cpp:242-306 | For every format, frame size and two quanta, the first of at least one frame: captured before the consumer runs, they lead to a failed check |
| `AudioPipeline.StepKeepsInv` | src/services/audio_service.cpp:195-328 | Every step keeps the byte and sample coupling, the byte stream and the ledger |
| `AudioPipeline.QuotientIsDivision` | src/services/audio_service.cpp:243-244 | The ledger's quotient is the unsigned division of the code |
| `AudioService.DynamicBuffer.Reset` | src/av/media_chunk.cpp:6 | Nothing is committed; all bytes are room again |
| `AudioService.DynamicBuffer.Prepare` | src/av/media_chunk.cpp:8-14 | At least `n` writable bytes; committed bytes and existing room are unchanged |
| `AudioService.DynamicBuffer.Commit` | src/av/media_chunk.cpp:16-20 | The queue grows by the first `n` bytes of the room |
| `AudioService.DynamicBuffer.Consume` | src/av/media_chunk.cpp:22-28 | The queue loses its first `n` bytes; the room is unchanged |
| `AudioService.DynamicBuffer.Append` | src/services/audio_service.cpp:230-237 | Prepare, copy and commit together append to the queue |
| `AudioService.ChunkWriter.Write` | src/handlers/audio_chunk_writer.cpp:50-66 | The frame is stamped with the samples written before it and holds the head of every channel; the counter advances by one frame |
| `AudioService.ChunkWriter.WriteThrows` | src/handlers/audio_chunk_writer.cpp:31-68 | If it throws no frame is handed on; the counter has advanced if that came after the timestamp |
| `AudioService.PrepareChannels` | src/services/audio_service.cpp:29-40 | One empty buffer if interleaved, two if planar, all distinct |
| `AudioService.AudioService.OnProcess` | src/services/audio_service.cpp:214-246 | Refines the capture step; each channel's bytes join its own buffer; fails exactly if the number of channels is wrong, and then changes nothing else |
| `AudioService.AudioService.TakeFrame` | src/services/audio_service.cpp:304-327 | Refines the consumer's step, failed check included |
| `AudioService.AudioService.Abort` | src/services/audio_service.cpp:304-308 | A listener that throws drops the frames still claimed; what is buffered stays |
| `AudioService.AudioService.DispatchChunks` | src/services/audio_service.cpp:290-328 | Refines the consumer running alone, with a listener that works or one that throws at any frame |
| `SampleFormat.SampleCountIsWhole` | src/services/audio_service.cpp:214-218 | The two truncating divisions count exactly the whole samples in a buffer |
| `SampleFormat.LibavRoundTrip` | src/av/sample_format.hpp:88-152 | The conversions to and from libav are inverse, and every other libav format is refused |
| `SampleFormat.FormatsAgree` | src/av/sample_format.hpp:35-81 | Element size, planarity and floating point are those of the libav format, and a planar format has the size of its interleaved counterpart |
| `SampleFormat.StereoLayout` | src/services/audio_service.cpp:214-218 | One buffer of both channels' elements if interleaved, else two; the sample count of a buffer of so many samples is that number |
| `Timers.TickTimers` | src/services/context.cpp:46-67 | Every timer ticks once; each dispatch call is for a timer that is due, to its own service; the result is the least of the frame time and all remaining times; if a dispatch throws, that timer and those before it have ticked and the others have not |
| `Timers.CallsOfTick` | src/services/context.cpp:52-61 | One tick makes exactly one dispatch call for each timer whose rest is at most the time elapsed, and none for any other |
| `Timers.CallsInOrder` | src/services/context.cpp:52-61 | These calls come in the order of the timers |
| `Timers.TickedRemaining` | src/services/context.cpp:53-61 | The rest after a tick, in its three cases |
| `Timers.TimeIsConserved` | src/services/context.cpp:52-61 | For any wake-ups: time passed plus time remaining is the initial rest plus a period per dispatch plus what overruns lost; the rest never exceeds the period |
| `Timers.NeverTooOften` | src/services/context.cpp:52-61 | A registered timer is dispatched at most once per period, plus once |
| `Timers.TimersAreIndependent` | src/services/context.cpp:52-64 | Each timer behaves as if it were alone |
| `Timers.NothingLost` | src/services/context.cpp:50-66 | If every wake-up is at most the jitter late, and the jitter at most the period, a timer loses no time |
| `Timers.DriftFree` | src/services/context.cpp:50-66 | Then each timer has fired exactly total time over period times, plus once if its rest is positive |
| `Timers.Register` | src/services/readiness.cpp:39-50 | A timer is inserted, due at once, in front of those with at least its period, and the periods stay sorted |
| `Context.FromNanoseconds` | src/services/context.cpp:40-44 | Seconds and nanoseconds below one second that add up to the value |
| `Context.EventLoop` | src/services/context.cpp:150-191 | The timers are those of the clock readings, every sleep is what was due then, the dispatch calls are those for due timers and ready registered descriptors in order, and each timer is called as often as the scheduling results count |
| `Context.LoopCalls` | src/services/context.cpp:150-191 | The loop's calls for a timer number `Dispatched`, the count of `TimeIsConserved` and `DriftFree` |
| `Context.HandleReady` | src/services/context.cpp:167-190 | The descriptors a poll reports are dispatched in order, a registered one as often as it is reported, the loop's own eventfd and unregistered ones never |
| `Context.NotifiesOwnService` | src/services/context.cpp:185-188 | Each of these calls goes to the service that registered the descriptor |
| `Context.CallsOfLastTurn` | src/services/context.cpp:150-191 | A turn that throws calls each timer it reaches at most once |
| `Context.CallsAtThrow` | src/services/context.cpp:150-191 | If a timer's dispatch throws, no descriptor is looked at in that turn |
| `Context.LoopTurn` | src/services/context.cpp:150-191 | In each turn the timers come first, then the descriptors the poll reports |
| `Context.NotifiesInOrder` | src/services/context.cpp:168-189 | The calls come in the order of the reports |
| `Context.PunctualLoopIsDriftFree` | src/services/context.cpp:148-159 | A loop that always wakes within the jitter of its own timeout is drift-free |
| `StopRequest.NoStopSleptThrough` | src/services/context.cpp:85-90 | In every interleaving of the loop and any number of threads that ask: when those have written, the eventfd is readable whenever the loop sleeps with the flag set, so it does not wait for its timeout |
| `StopRequest.StopIsObeyed` | src/services/context.cpp:150-193 | Whatever other threads do, a loop whose flag is set leaves within four of its own steps |
| `Context.Context.Run` | src/services/context.cpp:92-194 | Each service whose init completed is initialised once and uninitialised once, no other ever, the uninits after all inits and in the same order, whether init, a timer's dispatch, the poll or a descriptor's dispatch throws or the loop is stopped; timers and dispatch calls are those of the turns made; the loop runs only if something is registered, and only then is a stop request used up |
| `Context.EachOnce` | src/services/context.cpp:23-31 | Bracketing positions mean one init and one uninit for each service |
| `Base64.Decode` | src/utils/base64.cpp:78-120 | On either byte order the loop computes `Decoded`: the bytes of each group of four characters, the first error winning |
| `Base64.DecodeChunk` | src/utils/base64.cpp:40-72 | The accumulator holds the 24 bits spelled by the tokens before the first '=' above the byte count, or the right error is returned |
| `Base64.Find` | src/utils/base64.cpp:21-57 | The position of a character in Table 1 of RFC 4648, by classes of characters, or the end for any other |
| `Base64.AlphabetIsTable1` | src/utils/base64.cpp:21-38 | The alphabet of the decoder and the encoder is that table |
| `Base64.FourCharacters` | src/utils/base64.cpp:40-117 | The three bytes of four characters, bit by bit from their positions in the table |
| `Base64.ThreeCharacters` | src/utils/base64.cpp:40-117 | The two bytes of three characters, padded or not |
| `Base64.TwoCharacters` | src/utils/base64.cpp:40-117 | The byte of two characters, padded or not |
| `Base64.TestVectors` | src/utils/base64.cpp:78-120 | The vectors for "f", "fo" and "foo" in section 10 of RFC 4648 |
| `Base64.PaddingFirst` | src/utils/base64.cpp:49-70 | A group that starts with '=' yields three zero bytes |
| `Base64.EitherByteOrder` | src/utils/base64.cpp:7-19 | Both branches yield the most significant byte first |
| `Base64.OrAdds` | src/utils/base64.cpp:58 | The bitwise or of bits below all those set is their sum |
| `Base64.RoundTrip` | src/utils/base64.cpp:78-120 | Decoding the encoding of any bytes returns them, padded or not |
| `Base64.Outcome` | src/utils/base64.cpp:48-117 | For strings without '=': success exactly if all characters are in the alphabet and the length is not 1 modulo 4, with 6 * length / 8 bytes; a foreign character is always reported as such |
| `Base64.Reencoded` | src/utils/base64.cpp:78-120 | A decodable string without '=' is what the encoder writes for its bytes exactly if the unused bits of its last character are zero |
| `Base64Groups.GroupRoundTrip` | src/utils/base64.cpp:58-71 | The bytes of the indexes of a group are the group |
| `Base64Groups.GroupReencoded` | src/utils/base64.cpp:58-71 | The indexes of the bytes of a group are the group exactly if it is canonical |
| `Histogram.Histogram.constructor` | src/metrics/histogram.hpp:73-82 | Edge `k` is `(k + 1) * width`, though the addition wraps around at 64 bits; all counts are zero |
| `Histogram.Histogram.Locate` | src/metrics/histogram.hpp:90-95 | The binary search finds the bucket the value falls in, which is the closed form by division |
| `Histogram.Histogram.AddValue` | src/metrics/histogram.hpp:90-98 | The count of the one bucket whose interval holds the value goes up by one; every count stays the number of values so far that fall in its bucket |
| `Histogram.OneBucket` | src/metrics/histogram.hpp:92-95 | No value falls in two buckets |
| `Histogram.CountsAddUp` | src/metrics/histogram.hpp:97 | The counts add up to the number of values |
| `Search.LowerBound` | src/metrics/histogram.hpp:94-95 | The first position of a sorted range whose element is not below the value |

## Left out

- GL, EGL, Wayland, X11, CUDA, NvFBC, DRM, PipeWire setup, sockets and signal handling: foreign calls without visible behaviour.
- Command line, logging, `Result`, `Receiver`, scope guards, histogram formatting, `convert_to_pipewire_format`: table lookups and easy members.
- The muxer's interleaving, timestamp rescaling and all codec internals: a packet is an opaque token.
- Memory order, and overflow of the 64-bit counters of eventfds, samples and timestamps: integers are unbounded, except for the histogram's edges and the 32-bit value of the base64 decoder.
- The heap classes are sequential: the mutex makes each critical section one method, and interleaving is the subject of the step relations. Other threads cannot touch what a method works on outside a critical section.
- Move construction and move assignment of `IntrusiveList`: the non-empty branch (src/utils/intrusive_list.hpp:37-42) never sets the new sentinel's own links, so the result is not well formed; the modelled code never moves a list.
- IntrusiveList.List.Splice: the two lists are different objects; one list is the subject of `SpliceWithin` and `SpliceTurns`.
- EncoderShutdown.WakeupIsDue: entries pushed before the eventfd exists get no wake-up of their own, so they are excluded; the last dispatch picks them up. Assigning `notify_fd_` is atomic.
- EncoderShutdown.PacketsAreNamed: after a dispatch that threw, a codec may hold packets that no entry names, so the claim is for runs in which nothing threw; `EncoderOrder.PacketsAreTraced` covers all runs.
- EncoderShutdown.FifoDelivery: prefixes hold for runs in which nothing threw; for all others `EncoderOrder.PacketsInOrder` says what is missing.
- EncoderShutdown.CleanShutdown: `ex` and its rethrow are not modelled; an exception in a producer only ends that producer.
- The step relation ends when `run_loop` returns; of what follows, only the pool's destructor is modelled.
- AudioService.AudioService.OnProcess: the early returns for a missing buffer (src/services/audio_service.cpp:200-212) change nothing and are not modelled; all channels deliver as many bytes as the first one's size says.
- AudioService.AudioService.DispatchChunks: a chunk listener is installed; without one the frames are neither taken nor checked. Reading the eventfd yields a positive number, since the poll reported it.
- AudioService.ChunkWriter.Write: the check on the sample count is the one `dispatch_chunks` made just before; the frame's other fields, and an unsupported codec format, are left to `SampleFormat.LibavRoundTrip`.
- The check at the end of `prepare_buffer_channels` is always true, because of operator precedence; the number of channels is proved from the loop.
- A frame size of zero: the program divides by it.
- Timers.Register: the period is an argument; the program computes it in floating point (src/services/readiness.cpp:35-37). A period of zero is excluded from the counts of dispatches.
- Context.Context.Run: what the dispatch functions do is the subject of `EncoderPipeline` and `AudioPipeline`; a stop requested during the loop appears as the end of `elapsed`, and the eventfd that ends the sleep is in `StopRequest`; uninit does not throw; creating the loop's own eventfd succeeds.
- Base64.RoundTrip: the encoder is section 4 of RFC 4648, not part of the program. Characters after the first '=' of a group are ignored; such strings are covered by `Decode` and `PaddingFirst`, not by the round trip.
- Histogram.Histogram.AddValue: the counts are atomic in the program; here calls follow one another.
