/** What one undisturbed `dispatch` computes, and that the media thread's steps compute it. */
module EncoderDispatch {
  import opened Common
  import opened EncoderPipeline

  function Stamped(stream: nat, packets: seq<Packet>): seq<Muxed> {
    seq(|packets|, i requires 0 <= i < |packets| => Muxed(stream, packets[i]))
  }

  /** Everything the codec of `e` holds is muxed on the stream of `e`. */
  function DrainCodec(k: Core, e: Entry): (r: Core)
    requires e.codec < |k.out|
    ensures |r.out| == |k.out|
  {
    k.(muxed := k.muxed + Stamped(e.stream, k.out[e.codec]), out := k.out[e.codec := []])
  }

  ghost predicate InRange(k: Core, es: seq<Entry>) {
    forall e | e in es :: e.codec < |k.out|
  }

  function DrainAll(k: Core, es: seq<Entry>): (r: Core)
    requires InRange(k, es)
    ensures |r.out| == |k.out| && r.pending == k.pending && r.pool == k.pool && r.counter == k.counter
    ensures r.created == k.created && r.destroyed == k.destroyed
    decreases |es|
  {
    if es == [] then k else DrainAll(DrainCodec(k, es[0]), es[1..])
  }

  function ItemsOf(es: seq<Entry>): seq<nat> {
    seq(|es|, i requires 0 <= i < |es| => es[i].item)
  }

  /** The queue is emptied, every codec it names is drained, and its items return to the pool. */
  function Dispatched(k: Core): Core
    requires InRange(k, k.pending)
  {
    var d := DrainAll(TakePending(k), k.pending);
    d.(pool := d.pool + ItemsOf(k.pending))
  }

  lemma {:induction false} DrainOneMore(k: Core, es: seq<Entry>, e: Entry)
    requires InRange(k, es + [e])
    ensures InRange(k, es) && e.codec < |k.out|
    ensures DrainAll(k, es + [e]) == DrainCodec(DrainAll(k, es), e)
    decreases |es|
  {
    assert e in es + [e];
    assert forall x | x in es :: x in es + [e];
    if es == [] {
      assert es + [e] == [e];
      assert [e][1..] == [];
    } else {
      assert (es + [e])[1..] == es[1..] + [e];
      DrainOneMore(DrainCodec(k, es[0]), es[1..], e);
    }
  }

  lemma DrainFirst(k: Core, es: seq<Entry>)
    requires InRange(k, es) && es != []
    ensures es[0].codec < |k.out| && InRange(DrainCodec(k, es[0]), es[1..])
    ensures DrainAll(k, es) == DrainAll(DrainCodec(k, es[0]), es[1..])
  {
    assert es[0] in es;
  }

  lemma {:induction false} DrainKeepsMuxed(k: Core, es: seq<Entry>)
    requires InRange(k, es)
    ensures k.muxed <= DrainAll(k, es).muxed
    decreases |es|
  {
    if es != [] { DrainKeepsMuxed(DrainCodec(k, es[0]), es[1..]); }
  }

  // ----- A dispatch that throws

  /** `after` is `before` and `m` packets of `queue`; `left` is the rest of `queue`, or that but the
      packet whose write failed. */
  ghost predicate CutAt(
      stream: nat, queue: seq<Packet>, m: nat, left: seq<Packet>, before: seq<Muxed>, after: seq<Muxed>) {
    && m <= |queue|
    && after == before + Stamped(stream, queue[..m])
    && (left == queue[m..] || (m < |queue| && left == queue[m + 1..]))
  }

  ghost predicate CutShort(stream: nat, queue: seq<Packet>, left: seq<Packet>, before: seq<Muxed>, after: seq<Muxed>) {
    exists m: nat :: CutAt(stream, queue, m, left, before, after)
  }

  /** The first `n` of the entries `es` were drained, the drain of the next one was cut short, and
      all other codecs are as they were. */
  ghost predicate Broken(k: Core, es: seq<Entry>, n: nat, r: Core)
    requires InRange(k, es)
  {
    && n < |es| && InRange(k, es[..n])
    && var d, e := DrainAll(k, es[..n]), es[n];
       && r == d.(out := r.out, muxed := r.muxed) && |r.out| == |d.out| && e.codec < |d.out|
       && (forall j | 0 <= j < |d.out| && j != e.codec :: r.out[j] == d.out[j])
       && CutShort(e.stream, d.out[e.codec], r.out[e.codec], d.muxed, r.muxed)
  }

  /** What the loop over the entries `es` makes of `k`. */
  ghost predicate DrainResult(k: Core, es: seq<Entry>, r: Core, threw: bool) {
    InRange(k, es) && if threw then exists n: nat :: Broken(k, es, n, r) else r == DrainAll(k, es)
  }

  /** A dispatch that throws has drained the queue as far as it came, and returned all of it. */
  ghost predicate DispatchBroken(k: Core, r: Core) {
    r.pool == k.pool + ItemsOf(k.pending) && DrainResult(TakePending(k), k.pending, r.(pool := k.pool), true)
  }

  ghost predicate DispatchResult(k: Core, r: Core, threw: bool) {
    if threw then DispatchBroken(k, r) else InRange(k, k.pending) && r == Dispatched(k)
  }

  lemma DrainResultKeeps(k: Core, es: seq<Entry>, r: Core, threw: bool)
    requires DrainResult(k, es, r, threw)
    ensures r == k.(out := r.out, muxed := r.muxed) && |r.out| == |k.out| && k.muxed <= r.muxed
  {
    if threw {
      var n: nat :| Broken(k, es, n, r);
      DrainKeepsMuxed(k, es[..n]);
    } else {
      DrainKeepsMuxed(k, es);
    }
  }

  lemma DispatchComposed(k: Core, r: Core, threw: bool)
    requires DrainResult(TakePending(k), k.pending, r, threw)
    ensures DispatchResult(k, r.(pool := r.pool + ItemsOf(k.pending)), threw)
  {
    DrainResultKeeps(TakePending(k), k.pending, r, threw);
    assert r.(pool := r.pool + ItemsOf(k.pending)).(pool := k.pool) == r;
  }

  /** Whether or not a dispatch throws: the queue is empty, all its items are in the pool, and what
      was muxed before stays muxed. */
  lemma DispatchKeeps(k: Core, r: Core, threw: bool)
    requires DispatchResult(k, r, threw)
    ensures r == k.(out := r.out, muxed := r.muxed, pending := [], pool := k.pool + ItemsOf(k.pending))
    ensures |r.out| == |k.out| && k.muxed <= r.muxed
  {
    DrainResultKeeps(TakePending(k), k.pending, r.(pool := k.pool), threw);
  }

  // ----- The media thread running alone

  /** The media thread takes the steps `ds` while all others stand still. */
  ghost predicate MediaRun(c: Config, s: State, ds: seq<MediaStep>, s': State)
    decreases |ds|
  {
    if ds == [] then s' == s
    else MediaEnabled(s, ds[0]) && MediaRun(c, ApplyMedia(c, s, ds[0]), ds[1..], s')
  }

  function OfMediaAll(ds: seq<MediaStep>): (steps: seq<Step>)
    ensures |steps| == |ds|
  {
    seq(|ds|, i requires 0 <= i < |ds| => OfMedia(ds[i]))
  }

  lemma {:induction false} MediaRunIsRun(c: Config, s: State, ds: seq<MediaStep>, s': State)
    requires MediaRun(c, s, ds, s')
    ensures Run(c, s, OfMediaAll(ds), s')
    decreases |ds|
  {
    if ds != [] {
      assert OfMediaAll(ds)[1..] == OfMediaAll(ds[1..]);
      MediaRunIsRun(c, ApplyMedia(c, s, ds[0]), ds[1..], s');
    }
  }

  lemma {:induction false} MediaRunAppend(
      c: Config, s: State, a: seq<MediaStep>, mid: State, b: seq<MediaStep>, s': State)
    requires MediaRun(c, s, a, mid) && MediaRun(c, mid, b, s')
    ensures MediaRun(c, s, a + b, s')
    decreases |a|
  {
    if a == [] {
      assert a + b == b;
    } else {
      assert (a + b)[1..] == a[1..] + b;
      MediaRunAppend(c, ApplyMedia(c, s, a[0]), a[1..], mid, b, s');
    }
  }

  lemma RunOne(c: Config, s: State, d: MediaStep)
    requires MediaEnabled(s, d)
    ensures MediaRun(c, s, [d], ApplyMedia(c, s, d))
  {
    assert [d][1..] == [];
  }

  /** One packet of the current codec is received and muxed. */
  lemma OnePacket(c: Config, s: State) returns (s': State)
    requires s.media.Draining? && s.packet.None? && s.todo != [] && HasPacket(s.core, s.todo[0].codec)
    ensures MediaRun(c, s, [Receive, Mux], s')
    ensures var e, queue := s.todo[0], s.core.out[s.todo[0].codec];
            s' == s.(core := s.core.(out := s.core.out[e.codec := queue[1..]],
                                     muxed := s.core.muxed + [Muxed(e.stream, queue[0])]))
  {
    var mid := ApplyMedia(c, s, Receive);
    s' := ApplyMedia(c, mid, Mux);
    RunOne(c, s, Receive);
    RunOne(c, mid, Mux);
    MediaRunAppend(c, s, [Receive], mid, [Mux], s');
    assert [Receive] + [Mux] == [Receive, Mux];
  }

  lemma DrainUnfold(k: Core, e: Entry)
    requires HasPacket(k, e.codec)
    ensures var queue := k.out[e.codec];
            DrainCodec(k.(out := k.out[e.codec := queue[1..]], muxed := k.muxed + [Muxed(e.stream, queue[0])]), e)
            == DrainCodec(k, e)
  {
    var queue := k.out[e.codec];
    assert [Muxed(e.stream, queue[0])] + Stamped(e.stream, queue[1..]) == Stamped(e.stream, queue);
    assert k.muxed + [Muxed(e.stream, queue[0])] + Stamped(e.stream, queue[1..]) == k.muxed + Stamped(e.stream, queue);
    assert k.out[e.codec := queue[1..]][e.codec := []] == k.out[e.codec := []];
  }

  /** Receiving and muxing until EAGAIN empties one codec. */
  lemma {:induction false} DrainCodecAlone(c: Config, s: State) returns (steps: seq<MediaStep>, s': State)
    requires s.media.Draining? && s.packet.None? && s.todo != [] && s.todo[0].codec < |s.core.out|
    ensures MediaRun(c, s, steps, s')
    ensures s'.core == DrainCodec(s.core, s.todo[0])
    ensures s'.media == s.media && s'.packet == None
    ensures s'.drained == s.drained + [s.todo[0]] && s'.todo == s.todo[1..]
    decreases |s.core.out[s.todo[0].codec]|
  {
    var e := s.todo[0];
    if s.core.out[e.codec] == [] {
      RunOne(c, s, ReceiveAgain);
      steps, s' := [ReceiveAgain], ApplyMedia(c, s, ReceiveAgain);
      assert s.core.out[e.codec := []] == s.core.out;
      assert s.core.muxed + Stamped(e.stream, []) == s.core.muxed;
    } else {
      var mid := OnePacket(c, s);
      DrainUnfold(s.core, e);
      var rest: seq<MediaStep>;
      rest, s' := DrainCodecAlone(c, mid);
      steps := [Receive, Mux] + rest;
      MediaRunAppend(c, s, [Receive, Mux], mid, rest, s');
    }
  }

  lemma OneOff(drained: seq<Entry>, todo: seq<Entry>, n: nat)
    requires 0 < n <= |todo|
    ensures todo[..n][0] == todo[0] && todo[..n][1..] == todo[1..][..n - 1] && todo[1..][n - 1..] == todo[n..]
    ensures drained + [todo[0]] + todo[1..][..n - 1] == drained + todo[..n]
  {
  }

  /** The first `n` entries of the local list are drained. */
  lemma {:induction false} DrainAlone(c: Config, s: State, n: nat) returns (steps: seq<MediaStep>, s': State)
    requires s.media.Draining? && s.packet.None? && n <= |s.todo| && InRange(s.core, s.todo[..n])
    ensures MediaRun(c, s, steps, s')
    ensures s'.core == DrainAll(s.core, s.todo[..n])
    ensures s'.media == s.media && s'.packet == None
    ensures s'.drained == s.drained + s.todo[..n] && s'.todo == s.todo[n..]
    decreases n
  {
    if n == 0 {
      steps, s' := [], s;
    } else {
      OneOff(s.drained, s.todo, n);
      DrainFirst(s.core, s.todo[..n]);
      var first, mid := DrainCodecAlone(c, s);
      var rest: seq<MediaStep>;
      rest, s' := DrainAlone(c, mid, n - 1);
      MediaRunAppend(c, s, first, mid, rest, s');
      steps := first + rest;
    }
  }

  lemma ReturnStep(c: Config, s: State)
    requires MediaEnabled(s, ReturnOne)
    ensures var s', all := ApplyMedia(c, s, ReturnOne), s.drained + s.todo;
            && s'.core == s.core.(pool := s.core.pool + [all[0].item]) && s'.drained + s'.todo == all[1..]
            && s'.media == s.media && s'.packet == s.packet && s'.stop == s.stop && s'.main == s.main
            && s'.threads == s.threads
  {
  }

  /** The guard returns the whole local list, drained or not. */
  lemma {:induction false} ReturnAlone(c: Config, s: State) returns (steps: seq<MediaStep>, s': State)
    requires s.media.Returning?
    ensures MediaRun(c, s, steps, s')
    ensures s'.core == s.core.(pool := s.core.pool + ItemsOf(s.drained + s.todo))
    ensures s'.media == s.media && s'.packet == s.packet && s'.drained == [] && s'.todo == []
    ensures s'.stop == s.stop && s'.main == s.main && s'.threads == s.threads
    decreases |s.drained| + |s.todo|
  {
    var all := s.drained + s.todo;
    if all == [] {
      steps, s' := [], s;
    } else {
      var mid := ApplyMedia(c, s, ReturnOne);
      ReturnStep(c, s);
      RunOne(c, s, ReturnOne);
      steps, s' := ReturnAlone(c, mid);
      MediaRunAppend(c, s, [ReturnOne], mid, steps, s');
      steps := [ReturnOne] + steps;
      assert mid.core.pool + ItemsOf(all[1..]) == s.core.pool + ItemsOf(all);
    }
  }

  lemma Chain(c: Config, s: State, a: seq<MediaStep>, mid: State, d: MediaStep)
    requires MediaRun(c, s, a, mid) && MediaEnabled(mid, d)
    ensures MediaRun(c, s, a + [d], ApplyMedia(c, mid, d))
  {
    RunOne(c, mid, d);
    MediaRunAppend(c, s, a, mid, [d], ApplyMedia(c, mid, d));
  }

  /** The end of a dispatch: the list goes back to the pool, and the thread goes on. */
  lemma FinishAlone(c: Config, s: State) returns (steps: seq<MediaStep>, s': State)
    requires s.media.Returning?
    ensures MediaRun(c, s, steps, s')
    ensures s'.core == s.core.(pool := s.core.pool + ItemsOf(s.drained + s.todo))
    ensures s'.media == AfterDispatch(s.media.last, s.media.threw)
    ensures s'.stop == s.stop && s'.main == s.main && s'.threads == s.threads
  {
    var mid;
    steps, mid := ReturnAlone(c, s);
    Chain(c, s, steps, mid, ReturnDone);
    steps, s' := steps + [ReturnDone], ApplyMedia(c, mid, ReturnDone);
  }

  /** The splice, and the drain of the first `n` entries. */
  lemma SpliceAndDrain(c: Config, s: State, n: nat) returns (steps: seq<MediaStep>, s': State)
    requires s.media.Splicing? && s.packet.None? && s.drained == []
    requires n <= |s.core.pending| && InRange(s.core, s.core.pending[..n])
    ensures MediaRun(c, s, steps, s')
    ensures s'.core == DrainAll(TakePending(s.core), s.core.pending[..n])
    ensures s'.media == Draining(s.media.last) && s'.packet == None
    ensures s'.drained == s.core.pending[..n] && s'.todo == s.core.pending[n..]
  {
    var mid := ApplyMedia(c, s, Splice);
    RunOne(c, s, Splice);
    var drain;
    drain, s' := DrainAlone(c, mid, n);
    MediaRunAppend(c, s, [Splice], mid, drain, s');
    steps := [Splice] + drain;
  }

  lemma DoneAndFinish(c: Config, s: State) returns (steps: seq<MediaStep>, s': State)
    requires s.media.Draining? && s.packet.None? && s.todo == []
    ensures MediaRun(c, s, steps, s')
    ensures s'.core == s.core.(pool := s.core.pool + ItemsOf(s.drained))
    ensures s'.media == AfterDispatch(s.media.last, false)
  {
    var mid := ApplyMedia(c, s, DrainDone);
    RunOne(c, s, DrainDone);
    var finish;
    finish, s' := FinishAlone(c, mid);
    MediaRunAppend(c, s, [DrainDone], mid, finish, s');
    steps := [DrainDone] + finish;
    assert s.drained + [] == s.drained;
  }

  /** From the splice on, the media thread alone turns the shared data into `Dispatched`. */
  lemma DispatchAlone(c: Config, s: State) returns (steps: seq<MediaStep>, s': State)
    requires s.media.Splicing? && s.packet.None? && s.drained == [] && InRange(s.core, s.core.pending)
    ensures MediaRun(c, s, steps, s') && Run(c, s, OfMediaAll(steps), s')
    ensures s'.core == Dispatched(s.core) && s'.media == AfterDispatch(s.media.last, false)
  {
    var es := s.core.pending;
    assert es[..|es|] == es;
    var mid, rest;
    steps, mid := SpliceAndDrain(c, s, |es|);
    rest, s' := DoneAndFinish(c, mid);
    MediaRunAppend(c, s, steps, mid, rest, s');
    steps := steps + rest;
    MediaRunIsRun(c, s, steps, s');
  }

  // ----- A dispatch that throws, step by step

  /** The first `m` packets of the codec of `e` are muxed. */
  ghost function PartlyDrained(k: Core, e: Entry, m: nat): Core
    requires e.codec < |k.out| && m <= |k.out[e.codec]|
  {
    var queue := k.out[e.codec];
    k.(out := k.out[e.codec := queue[m..]], muxed := k.muxed + Stamped(e.stream, queue[..m]))
  }

  lemma PartlyDrainedStep(k: Core, e: Entry, m: nat)
    requires e.codec < |k.out| && 1 <= m <= |k.out[e.codec]|
    ensures var queue := k.out[e.codec];
            var k' := k.(out := k.out[e.codec := queue[1..]], muxed := k.muxed + [Muxed(e.stream, queue[0])]);
            PartlyDrained(k', e, m - 1) == PartlyDrained(k, e, m)
  {
    var queue := k.out[e.codec];
    assert [Muxed(e.stream, queue[0])] + Stamped(e.stream, queue[1..][..m - 1]) == Stamped(e.stream, queue[..m]);
    assert queue[1..][m - 1..] == queue[m..];
    assert k.out[e.codec := queue[1..]][e.codec := queue[m..]] == k.out[e.codec := queue[m..]];
  }

  lemma PartlyDrainedNone(k: Core, e: Entry)
    requires e.codec < |k.out|
    ensures PartlyDrained(k, e, 0) == k
  {
    assert k.out[e.codec := k.out[e.codec]] == k.out && k.muxed + Stamped(e.stream, []) == k.muxed;
  }

  lemma {:induction false} PacketsAlone(c: Config, s: State, m: nat) returns (steps: seq<MediaStep>, s': State)
    requires s.media.Draining? && s.packet.None? && s.todo != [] && s.todo[0].codec < |s.core.out|
    requires m <= |s.core.out[s.todo[0].codec]|
    ensures MediaRun(c, s, steps, s')
    ensures s' == s.(core := PartlyDrained(s.core, s.todo[0], m))
    decreases m
  {
    if m == 0 {
      steps, s' := [], s;
      PartlyDrainedNone(s.core, s.todo[0]);
    } else {
      var mid := OnePacket(c, s);
      PartlyDrainedStep(s.core, s.todo[0], m);
      var rest: seq<MediaStep>;
      rest, s' := PacketsAlone(c, mid, m - 1);
      steps := [Receive, Mux] + rest;
      MediaRunAppend(c, s, [Receive, Mux], mid, rest, s');
    }
  }

  /** Receiving throws, or a packet is received and writing it throws. */
  lemma ThrowAlone(c: Config, s: State, lost: bool) returns (steps: seq<MediaStep>, s': State)
    requires s.media.Draining? && s.packet.None? && s.todo != [] && s.todo[0].codec < |s.core.out|
    requires lost ==> HasPacket(s.core, s.todo[0].codec)
    ensures MediaRun(c, s, steps, s')
    ensures s'.media == Returning(s.media.last, true) && s'.drained == s.drained && s'.todo == s.todo
    ensures s'.core == if lost then ReceivePacket(s.core, s.todo[0].codec) else s.core
  {
    if lost {
      var mid := ApplyMedia(c, s, Receive);
      RunOne(c, s, Receive);
      Chain(c, s, [Receive], mid, MuxThrows);
      steps, s' := [Receive] + [MuxThrows], ApplyMedia(c, mid, MuxThrows);
    } else {
      RunOne(c, s, ReceiveThrows);
      steps, s' := [ReceiveThrows], ApplyMedia(c, s, ReceiveThrows);
    }
  }

  /** Where the drain was cut short, and whether a packet was lost there. */
  lemma CutPoint(k: Core, es: seq<Entry>, r: Core) returns (m: nat, lost: bool)
    requires InRange(k, es) && Broken(k, es, 0, r)
    ensures es[0].codec < |k.out| && m <= |k.out[es[0].codec]|
    ensures var cut := PartlyDrained(k, es[0], m);
            && (lost ==> HasPacket(cut, es[0].codec))
            && r == if lost then ReceivePacket(cut, es[0].codec) else cut
  {
    var e := es[0];
    var queue, left := k.out[e.codec], r.out[e.codec];
    m :| CutAt(e.stream, queue, m, left, k.muxed, r.muxed);
    lost := left != queue[m..];
    assert r.out == k.out[e.codec := left];
    if lost { assert k.out[e.codec := queue[m..]][e.codec := left] == k.out[e.codec := left]; }
  }

  lemma CutAlone(c: Config, s: State, r: Core) returns (steps: seq<MediaStep>, s': State)
    requires s.media.Draining? && s.packet.None? && InRange(s.core, s.todo) && Broken(s.core, s.todo, 0, r)
    ensures MediaRun(c, s, steps, s')
    ensures s'.core == r && s'.media == Returning(s.media.last, true)
    ensures s'.drained == s.drained && s'.todo == s.todo
  {
    var m, lost := CutPoint(s.core, s.todo, r);
    var mid, ending;
    steps, mid := PacketsAlone(c, s, m);
    ending, s' := ThrowAlone(c, mid, lost);
    MediaRunAppend(c, s, steps, mid, ending, s');
    steps := steps + ending;
  }

  lemma CutAndFinish(c: Config, s: State, r: Core) returns (steps: seq<MediaStep>, s': State)
    requires s.media.Draining? && s.packet.None? && InRange(s.core, s.todo) && Broken(s.core, s.todo, 0, r)
    ensures MediaRun(c, s, steps, s')
    ensures s'.core == r.(pool := r.pool + ItemsOf(s.drained + s.todo)) && s'.media == AfterDispatch(s.media.last, true)
  {
    var mid, finish;
    steps, mid := CutAlone(c, s, r);
    finish, s' := FinishAlone(c, mid);
    MediaRunAppend(c, s, steps, mid, finish, s');
    steps := steps + finish;
  }

  /** Every outcome of a throwing dispatch is a run of the media thread. */
  lemma DispatchBrokenAlone(c: Config, s: State, r: Core) returns (steps: seq<MediaStep>, s': State)
    requires s.media.Splicing? && s.packet.None? && s.drained == [] && DispatchBroken(s.core, r)
    ensures MediaRun(c, s, steps, s') && Run(c, s, OfMediaAll(steps), s')
    ensures s'.core == r && s'.media == AfterDispatch(s.media.last, true)
  {
    var es, r' := s.core.pending, r.(pool := s.core.pool);
    var n: nat :| Broken(TakePending(s.core), es, n, r');
    BrokenRest(TakePending(s.core), es, n, r');
    var mid, rest;
    steps, mid := SpliceAndDrain(c, s, n);
    rest, s' := CutAndFinish(c, mid, r');
    MediaRunAppend(c, s, steps, mid, rest, s');
    steps := steps + rest;
    MediaRunIsRun(c, s, steps, s');
    assert es[..n] + es[n..] == es;
  }

  lemma BrokenRest(k: Core, es: seq<Entry>, n: nat, r: Core)
    requires InRange(k, es) && Broken(k, es, n, r)
    ensures InRange(DrainAll(k, es[..n]), es[n..]) && Broken(DrainAll(k, es[..n]), es[n..], 0, r)
  {
    assert es[n..][..0] == [];
  }
}
