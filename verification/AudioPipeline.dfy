/** The audio pipeline as a step relation: PipeWire's thread appends captured bytes and announces
    frames through an eventfd; the audio thread cuts fixed-size frames and stamps them. */
module AudioPipeline {
  import opened Common
  import opened SampleFormat

  /** `frameSize` samples make a frame. */
  datatype Config = Config(format: SampleFormat, frameSize: nat)

  predicate ValidConfig(c: Config) {
    c.frameSize > 0
  }

  function FrameBytes(c: Config): nat {
    c.frameSize * Width(c.format)
  }

  /** How many times `f` goes into `n`: the unsigned division `n / f`, as repeated subtraction. */
  function Quotient(n: nat, f: nat): nat
    requires f > 0
  {
    if n < f then 0 else 1 + Quotient(n - f, f)
  }

  lemma SmallMultiple(f: nat, d: int)
    requires f > 0 && -(f as int) < f * d < f
    ensures d == 0
  {
  }

  lemma DivisionIsUnique(f: nat, q: int, r: int, q': int, r': int)
    requires 0 <= r < f && 0 <= r' < f && f * q + r == f * q' + r'
    ensures q == q'
  {
    assert f * (q - q') == f * q - f * q' == r' - r;
    SmallMultiple(f, q - q');
  }

  lemma {:induction false} QuotientIsDivision(n: nat, f: nat)
    requires f > 0
    ensures Quotient(n, f) == n / f
  {
    var q, r := n / f, n % f;
    if n < f {
      DivisionIsUnique(f, q, r, 0, n);
    } else {
      var m := n - f;
      QuotientIsDivision(m, f);
      var q', r' := m / f, m % f;
      assert f * (q' + 1) == f * q' + f;
      DivisionIsUnique(f, q, r, q' + 1, r');
    }
  }

  /** What the chunk writer hands to the encoder: `payload[ch]` is copied from channel buffer `ch`. */
  datatype Frame = Frame(pts: nat, payload: seq<seq<Byte>>)

  /** `claimed` is how many frames the consumer has read from the eventfd and not yet taken;
      `failed` that the check at the head of its loop has ended the program; `aborted` that the chunk
      listener threw, which ends the consumer. `captured`, `debt` and `dropped` are history: all bytes
      delivered per channel, how many complete frames were still buffered, summed over the calls of
      `on_process`, and how many claimed frames an exception dropped. */
  datatype State = State(
    buffers: seq<seq<Byte>>,
    samples: nat,
    counter: nat,
    claimed: nat,
    frames: seq<Frame>,
    written: nat,
    failed: bool,
    aborted: bool,
    captured: seq<seq<Byte>>,
    debt: nat,
    dropped: nat)

  function Init(c: Config): State {
    var silent := seq(BufferCount(c.format), _ => []);
    State(silent, 0, 0, 0, [], 0, false, false, silent, 0, 0)
  }

  /** A `late` exception of the chunk listener comes after it advanced its sample counter. */
  datatype Step = Process(quantum: seq<seq<Byte>>) | ReadEvent | Take | TakeThrows(late: bool)

  /** One buffer per channel, all as long as the first. */
  predicate ValidQuantum(c: Config, quantum: seq<seq<Byte>>) {
    && |quantum| == BufferCount(c.format)
    && forall ch | 0 <= ch < |quantum| :: |quantum[ch]| == |quantum[0]|
  }

  function Appended(a: seq<seq<Byte>>, b: seq<seq<Byte>>): seq<seq<Byte>>
    requires |a| == |b|
  {
    seq(|a|, ch requires 0 <= ch < |a| => a[ch] + b[ch])
  }

  function Heads(a: seq<seq<Byte>>, n: nat): seq<seq<Byte>>
    requires forall ch | 0 <= ch < |a| :: n <= |a[ch]|
  {
    seq(|a|, ch requires 0 <= ch < |a| => a[ch][..n])
  }

  function Tails(a: seq<seq<Byte>>, n: nat): seq<seq<Byte>>
    requires forall ch | 0 <= ch < |a| :: n <= |a[ch]|
  {
    seq(|a|, ch requires 0 <= ch < |a| => a[ch][n..])
  }

  predicate Covers(s: State, bytes: nat) {
    forall ch | 0 <= ch < |s.buffers| :: bytes <= |s.buffers[ch]|
  }

  predicate Enabled(c: Config, s: State, step: Step) {
    && !s.failed
    && match step
       case Process(q) => ValidQuantum(c, q) && |s.buffers| == |s.captured| == |q|
       case ReadEvent => !s.aborted && s.claimed == 0 && s.counter > 0
       case Take => !s.aborted && s.claimed > 0 && (s.samples >= c.frameSize ==> Covers(s, FrameBytes(c)))
       case TakeThrows(_) => !s.aborted && s.claimed > 0 && s.samples >= c.frameSize
  }

  function Processed(c: Config, s: State, q: seq<seq<Byte>>): State
    requires ValidConfig(c) && ValidQuantum(c, q) && |s.buffers| == |s.captured| == |q|
  {
    var samples := s.samples + SampleCount(c.format, |q[0]|);
    s.(buffers := Appended(s.buffers, q),
       samples := samples,
       counter := if samples >= c.frameSize then s.counter + Quotient(samples, c.frameSize) else s.counter,
       captured := Appended(s.captured, q),
       debt := s.debt + Quotient(s.samples, c.frameSize))
  }

  /** The chunk listener, then the consumption of what it copied. */
  function Taken(c: Config, s: State): State
    requires s.claimed > 0 && s.samples >= c.frameSize && Covers(s, FrameBytes(c))
  {
    s.(claimed := s.claimed - 1,
       frames := s.frames + [Frame(s.written, Heads(s.buffers, FrameBytes(c)))],
       written := s.written + c.frameSize,
       buffers := Tails(s.buffers, FrameBytes(c)),
       samples := s.samples - c.frameSize)
  }

  /** The claimed frames are dropped; what is buffered stays. */
  function Thrown(c: Config, s: State, late: bool): State {
    s.(aborted := true, claimed := 0, dropped := s.dropped + s.claimed,
       written := if late then s.written + c.frameSize else s.written)
  }

  function Apply(c: Config, s: State, step: Step): State
    requires ValidConfig(c) && Enabled(c, s, step)
  {
    match step
    case Process(q) => Processed(c, s, q)
    case ReadEvent => s.(claimed := s.counter, counter := 0)
    case Take => if s.samples < c.frameSize then s.(failed := true) else Taken(c, s)
    case TakeThrows(late) => Thrown(c, s, late)
  }

  ghost predicate Run(c: Config, s: State, steps: seq<Step>, s': State)
    requires ValidConfig(c)
    decreases |steps|
  {
    if steps == [] then s' == s
    else Enabled(c, s, steps[0]) && Run(c, Apply(c, s, steps[0]), steps[1..], s')
  }

  ghost predicate Reachable(c: Config, s: State)
    requires ValidConfig(c)
  {
    exists steps :: Run(c, Init(c), steps, s)
  }

  // ----- Bytes and samples

  /** Every buffer has the same length and covers the counted samples. */
  ghost predicate Coupled(c: Config, s: State) {
    && |s.buffers| == |s.captured| == BufferCount(c.format)
    && (forall ch | 0 <= ch < |s.buffers| :: |s.buffers[ch]| == |s.buffers[0]|)
    && s.samples * Width(c.format) <= |s.buffers[0]|
  }

  lemma Distribute(a: nat, b: nat, w: nat)
    ensures (a + b) * w == a * w + b * w
  {
  }

  lemma FrameFits(c: Config, s: State)
    requires Coupled(c, s) && s.samples >= c.frameSize
    ensures Covers(s, FrameBytes(c))
  {
    Distribute(c.frameSize, s.samples - c.frameSize, Width(c.format));
  }

  lemma CoupledProcess(c: Config, s: State, q: seq<seq<Byte>>)
    requires ValidConfig(c) && Coupled(c, s) && Enabled(c, s, Process(q))
    ensures Coupled(c, Processed(c, s, q))
  {
    SampleCountIsWhole(c.format, |q[0]|);
    Distribute(s.samples, SampleCount(c.format, |q[0]|), Width(c.format));
  }

  lemma CoupledTake(c: Config, s: State)
    requires Coupled(c, s) && Enabled(c, s, Take) && s.samples >= c.frameSize
    ensures Coupled(c, Taken(c, s))
  {
    Distribute(c.frameSize, s.samples - c.frameSize, Width(c.format));
  }

  lemma CoupledKept(c: Config, s: State, step: Step)
    requires ValidConfig(c) && Coupled(c, s) && Enabled(c, s, step)
    ensures Coupled(c, Apply(c, s, step))
  {
    match step
    case Process(q) => CoupledProcess(c, s, q);
    case ReadEvent =>
    case Take => if s.samples >= c.frameSize { CoupledTake(c, s); }
    case TakeThrows(_) =>
  }

  // ----- The byte stream

  /** The bytes of channel `ch` in the frames, in order. */
  ghost function Emitted(frames: seq<Frame>, ch: nat): seq<Byte>
    requires forall k | 0 <= k < |frames| :: ch < |frames[k].payload|
  {
    if frames == [] then [] else Emitted(frames[..|frames| - 1], ch) + frames[|frames| - 1].payload[ch]
  }

  /** Frame `k` is the `k`-th slice of every channel's stream and is stamped with its first sample. */
  ghost predicate IsSlice(c: Config, s: State, k: nat)
    requires k < |s.frames|
  {
    var f, n := s.frames[k], FrameBytes(c);
    && f.pts == k * c.frameSize
    && |f.payload| == |s.captured|
    && forall ch | 0 <= ch < |s.captured| ::
         (k + 1) * n <= |s.captured[ch]| && f.payload[ch] == s.captured[ch][k * n..(k + 1) * n]
  }

  /** What was captured on channel `ch` is what the frames took followed by what is buffered. */
  ghost predicate Flows(c: Config, s: State, ch: nat)
    requires ch < |s.captured| == |s.buffers|
  {
    var n := |s.frames| * FrameBytes(c);
    n <= |s.captured[ch]| && s.captured[ch][n..] == s.buffers[ch]
  }

  ghost predicate Stream(c: Config, s: State)
    requires Coupled(c, s)
  {
    && (s.aborted || s.written == |s.frames| * c.frameSize)
    && (forall k | 0 <= k < |s.frames| :: IsSlice(c, s, k))
    && (forall ch | 0 <= ch < |s.captured| :: Flows(c, s, ch))
  }

  lemma SliceSurvives(c: Config, s: State, s': State, k: nat)
    requires k < |s.frames| <= |s'.frames| && s'.frames[k] == s.frames[k] && IsSlice(c, s, k)
    requires |s'.captured| == |s.captured| && forall ch | 0 <= ch < |s.captured| :: s.captured[ch] <= s'.captured[ch]
    ensures IsSlice(c, s', k)
  {
    var n := FrameBytes(c);
    assert k * n <= (k + 1) * n;
    forall ch | 0 <= ch < |s.captured|
      ensures s.captured[ch][k * n..(k + 1) * n] == s'.captured[ch][k * n..(k + 1) * n]
    {
    }
  }

  lemma StreamProcess(c: Config, s: State, q: seq<seq<Byte>>)
    requires ValidConfig(c) && Coupled(c, s) && Stream(c, s) && Enabled(c, s, Process(q))
    requires Coupled(c, Processed(c, s, q))
    ensures Stream(c, Processed(c, s, q))
  {
    var s', n := Processed(c, s, q), |s.frames| * FrameBytes(c);
    forall k | 0 <= k < |s.frames| ensures IsSlice(c, s', k) { SliceSurvives(c, s, s', k); }
    forall ch | 0 <= ch < |s'.captured| ensures Flows(c, s', ch) {
      assert Flows(c, s, ch);
      assert (s.captured[ch] + q[ch])[n..] == s.captured[ch][n..] + q[ch];
    }
  }

  /** The next `n` bytes after `m` slices of `n` are slice `m`. */
  lemma CutSlice(stream: seq<Byte>, m: nat, n: nat)
    requires m * n + n <= |stream|
    ensures (m + 1) * n == m * n + n
    ensures stream[m * n..][..n] == stream[m * n..m * n + n]
    ensures stream[m * n..][n..] == stream[m * n + n..]
  {
    Distribute(m, 1, n);
  }

  lemma FlowsTake(c: Config, s: State, ch: nat)
    requires Coupled(c, s) && Enabled(c, s, Take) && s.samples >= c.frameSize
    requires ch < |s.captured| && Flows(c, s, ch)
    ensures var s', n, m := Taken(c, s), FrameBytes(c), |s.frames|;
            && Flows(c, s', ch)
            && m * n <= (m + 1) * n <= |s.captured[ch]|
            && s'.frames[m].payload[ch] == s.captured[ch][m * n..(m + 1) * n]
  {
    CutSlice(s.captured[ch], |s.frames|, FrameBytes(c));
  }

  lemma StreamTake(c: Config, s: State)
    requires ValidConfig(c) && Coupled(c, s) && Stream(c, s) && Enabled(c, s, Take) && s.samples >= c.frameSize
    requires Coupled(c, Taken(c, s))
    ensures Stream(c, Taken(c, s))
  {
    var s', m := Taken(c, s), |s.frames|;
    Distribute(m, 1, c.frameSize);
    forall k | 0 <= k < m ensures IsSlice(c, s', k) { SliceSurvives(c, s, s', k); }
    forall ch | 0 <= ch < |s'.captured| ensures Flows(c, s', ch) { FlowsTake(c, s, ch); }
    assert IsSlice(c, s', m) by {
      forall ch | 0 <= ch < |s.captured| { FlowsTake(c, s, ch); }
    }
  }

  lemma StreamKept(c: Config, s: State, step: Step)
    requires ValidConfig(c) && Coupled(c, s) && Stream(c, s) && Enabled(c, s, step)
    requires Coupled(c, Apply(c, s, step))
    ensures Stream(c, Apply(c, s, step))
  {
    match step
    case Process(q) => StreamProcess(c, s, q);
    case ReadEvent => StreamSame(c, s, Apply(c, s, step));
    case Take => if s.samples >= c.frameSize { StreamTake(c, s); } else { StreamSame(c, s, Apply(c, s, step)); }
    case TakeThrows(_) => StreamSame(c, s, Apply(c, s, step));
  }

  lemma StreamSame(c: Config, s: State, s': State)
    requires Coupled(c, s) && Stream(c, s) && Coupled(c, s')
    requires s'.frames == s.frames && s'.captured == s.captured && s'.buffers == s.buffers
    requires s'.aborted || (!s.aborted && s'.written == s.written)
    ensures Stream(c, s')
  {
    forall k | 0 <= k < |s.frames| ensures IsSlice(c, s', k) { SliceSurvives(c, s, s', k); }
    forall ch | 0 <= ch < |s.captured| ensures Flows(c, s', ch) { assert Flows(c, s, ch); }
  }

  // ----- The notification ledger

  /** Announced frames, in the eventfd, with the consumer or dropped, beyond the complete frames
      buffered. */
  function Excess(c: Config, s: State): int
    requires ValidConfig(c)
  {
    s.counter + s.claimed + s.dropped - Quotient(s.samples, c.frameSize)
  }

  /** Each call of `on_process` raises the excess by the complete frames it finds still buffered;
      the consumer leaves it unchanged. */
  lemma LedgerStep(c: Config, s: State, step: Step)
    requires ValidConfig(c) && Enabled(c, s, step)
    ensures Excess(c, Apply(c, s, step)) == Excess(c, s) + if step.Process? then Quotient(s.samples, c.frameSize) else 0
  {
  }

  // ----- Every reachable state

  ghost predicate Inv(c: Config, s: State)
    requires ValidConfig(c)
  {
    Coupled(c, s) && Stream(c, s) && Excess(c, s) == s.debt && (s.aborted || s.dropped == 0)
  }

  lemma StepKeepsInv(c: Config, s: State, step: Step)
    requires ValidConfig(c) && Inv(c, s) && Enabled(c, s, step)
    ensures Inv(c, Apply(c, s, step))
  {
    CoupledKept(c, s, step);
    StreamKept(c, s, step);
    LedgerStep(c, s, step);
  }

  lemma {:induction false} RunKeepsInv(c: Config, s: State, steps: seq<Step>, s': State)
    requires ValidConfig(c) && Inv(c, s) && Run(c, s, steps, s')
    ensures Inv(c, s')
    decreases |steps|
  {
    if steps != [] {
      StepKeepsInv(c, s, steps[0]);
      RunKeepsInv(c, Apply(c, s, steps[0]), steps[1..], s');
    }
  }

  lemma ReachableInv(c: Config, s: State)
    requires ValidConfig(c) && Reachable(c, s)
    ensures Inv(c, s)
  {
    var steps :| Run(c, Init(c), steps, s);
    RunKeepsInv(c, Init(c), steps, s);
  }

  // ----- Main results

  lemma {:induction false} EmittedIsPrefix(c: Config, s: State, ch: nat, m: nat)
    requires ValidConfig(c) && Inv(c, s) && ch < |s.captured| && m <= |s.frames|
    ensures forall k | 0 <= k < |s.frames[..m]| :: ch < |s.frames[..m][k].payload|
    ensures m * FrameBytes(c) <= |s.captured[ch]|
    ensures Emitted(s.frames[..m], ch) == s.captured[ch][..m * FrameBytes(c)]
  {
    assert forall k | 0 <= k < m :: IsSlice(c, s, k);
    if m > 0 {
      EmittedIsPrefix(c, s, ch, m - 1);
      assert IsSlice(c, s, m - 1);
      assert s.frames[..m][..m - 1] == s.frames[..m - 1];
      Distribute(m - 1, 1, FrameBytes(c));
    }
  }

  /** The bytes that the calls of `on_process` in a run bring for channel `ch`, in order. */
  ghost function BroughtFor(steps: seq<Step>, ch: nat): seq<Byte> {
    if steps == [] then [] else BroughtBy(steps[0], ch) + BroughtFor(steps[1..], ch)
  }

  ghost function BroughtBy(step: Step, ch: nat): seq<Byte> {
    if step.Process? && ch < |step.quantum| then step.quantum[ch] else []
  }

  lemma CapturedStep(c: Config, s: State, step: Step, ch: nat)
    requires ValidConfig(c) && Enabled(c, s, step) && ch < |s.captured|
    ensures var s' := Apply(c, s, step);
            |s'.captured| == |s.captured| && s'.captured[ch] == s.captured[ch] + BroughtBy(step, ch)
  {
    assert s.captured[ch] + [] == s.captured[ch];
  }

  /** The history `captured` is what was brought, channel by channel. */
  lemma {:induction false} CapturedIsBrought(c: Config, s: State, steps: seq<Step>, s': State, ch: nat)
    requires ValidConfig(c) && Run(c, s, steps, s') && ch < |s.captured|
    ensures |s'.captured| == |s.captured| && s'.captured[ch] == s.captured[ch] + BroughtFor(steps, ch)
    decreases |steps|
  {
    if steps != [] {
      CapturedStep(c, s, steps[0], ch);
      CapturedIsBrought(c, Apply(c, s, steps[0]), steps[1..], s', ch);
      var brought, rest := BroughtBy(steps[0], ch), BroughtFor(steps[1..], ch);
      assert s.captured[ch] + brought + rest == s.captured[ch] + (brought + rest);
    }
  }

  /** Audio end to end, for every run and channel: what `on_process` brought is the bytes of the frames
      followed by those still buffered; frame `k` carries slice `k` and starts at sample
      `k * frameSize`. */
  lemma AudioEndToEnd(c: Config, steps: seq<Step>, s: State, ch: nat)
    requires ValidConfig(c) && Run(c, Init(c), steps, s) && ch < BufferCount(c.format)
    ensures ch < |s.captured| == |s.buffers| && s.captured[ch] == BroughtFor(steps, ch)
    ensures forall k | 0 <= k < |s.frames| :: IsSlice(c, s, k) && ch < |s.frames[k].payload|
    ensures BroughtFor(steps, ch) == Emitted(s.frames, ch) + s.buffers[ch]
  {
    RunKeepsInv(c, Init(c), steps, s);
    CapturedIsBrought(c, Init(c), steps, s, ch);
    assert forall k | 0 <= k < |s.frames| :: IsSlice(c, s, k);
    EmittedAll(c, s, ch);
  }

  /** Frame `k` by itself: its timestamp and its bytes, out of those brought. */
  lemma FrameIsSlice(c: Config, steps: seq<Step>, s: State, ch: nat, k: nat)
    requires ValidConfig(c) && Run(c, Init(c), steps, s) && ch < BufferCount(c.format) && k < |s.frames|
    ensures s.frames[k].pts == k * c.frameSize && ch < |s.frames[k].payload|
    ensures var n := c.frameSize * Width(c.format);
            k * n <= (k + 1) * n <= |BroughtFor(steps, ch)|
            && s.frames[k].payload[ch] == BroughtFor(steps, ch)[k * n..(k + 1) * n]
  {
    AudioEndToEnd(c, steps, s, ch);
    assert IsSlice(c, s, k);
    Distribute(k, 1, FrameBytes(c));
  }

  lemma EmittedAll(c: Config, s: State, ch: nat)
    requires ValidConfig(c) && Inv(c, s) && ch < |s.captured|
    ensures forall k | 0 <= k < |s.frames| :: ch < |s.frames[k].payload|
    ensures s.captured[ch] == Emitted(s.frames, ch) + s.buffers[ch]
  {
    EmittedIsPrefix(c, s, ch, |s.frames|);
    assert s.frames[..|s.frames|] == s.frames;
    assert Flows(c, s, ch);
    InTwo(s.captured[ch], |s.frames| * FrameBytes(c), Emitted(s.frames, ch), s.buffers[ch]);
  }

  lemma InTwo(stream: seq<Byte>, n: nat, head: seq<Byte>, tail: seq<Byte>)
    requires n <= |stream| && head == stream[..n] && tail == stream[n..]
    ensures stream == head + tail
  {
  }

  /** Byte and sample counts never drift apart far enough for a frame to be cut short. */
  lemma FramesAreCovered(c: Config, s: State)
    requires ValidConfig(c) && Reachable(c, s)
    ensures forall ch | 0 <= ch < |s.buffers| ::
              |s.buffers[ch]| == |s.buffers[0]| && s.samples * Width(c.format) <= |s.buffers[ch]|
    ensures s.samples >= c.frameSize ==> Covers(s, FrameBytes(c))
  {
    ReachableInv(c, s);
    if s.samples >= c.frameSize { FrameFits(c, s); }
  }

  ghost predicate WholeSamples(c: Config, step: Step) {
    step.Process? && step.quantum != [] ==> |step.quantum[0]| % Width(c.format) == 0
  }

  lemma ExactStep(c: Config, s: State, step: Step)
    requires ValidConfig(c) && Coupled(c, s) && Enabled(c, s, step) && WholeSamples(c, step)
    requires s.samples * Width(c.format) == |s.buffers[0]|
    ensures Coupled(c, Apply(c, s, step))
    ensures Apply(c, s, step).samples * Width(c.format) == |Apply(c, s, step).buffers[0]|
  {
    CoupledKept(c, s, step);
    match step
    case Process(q) =>
      SampleCountIsWhole(c.format, |q[0]|);
      Distribute(s.samples, SampleCount(c.format, |q[0]|), Width(c.format));
    case ReadEvent =>
    case Take => if s.samples >= c.frameSize { Distribute(c.frameSize, s.samples - c.frameSize, Width(c.format)); }
    case TakeThrows(_) =>
  }

  /** If every quantum holds whole samples, the buffers hold exactly the counted samples. */
  lemma {:induction false} WholeSamplesStayExact(c: Config, s: State, steps: seq<Step>, s': State)
    requires ValidConfig(c) && Coupled(c, s) && Run(c, s, steps, s')
    requires forall i | 0 <= i < |steps| :: WholeSamples(c, steps[i])
    requires s.samples * Width(c.format) == |s.buffers[0]|
    ensures Coupled(c, s') && s'.samples * Width(c.format) == |s'.buffers[0]|
    decreases |steps|
  {
    if steps != [] {
      ExactStep(c, s, steps[0]);
      WholeSamplesStayExact(c, Apply(c, s, steps[0]), steps[1..], s');
    }
  }

  /** The ledger: announced frames exceed the buffered ones by exactly `debt`. */
  lemma NotificationLedger(c: Config, s: State)
    requires ValidConfig(c) && Reachable(c, s)
    ensures s.counter + s.claimed + s.dropped == s.samples / c.frameSize + s.debt
    ensures !s.aborted ==> s.dropped == 0
  {
    ReachableInv(c, s);
    QuotientIsDivision(s.samples, c.frameSize);
  }

  // ----- When the check at the head of the consumer's loop fails

  /** Whether the chunk listener works, or throws after taking so many more frames. */
  datatype Listener = Works | Throws(after: nat, late: bool)

  function OneLess(f: Listener): Listener
    requires f.Throws? ==> f.after > 0
  {
    if f.Works? then f else Throws(f.after - 1, f.late)
  }

  predicate Idle(s: State) {
    s.failed || s.aborted || (s.claimed == 0 && s.counter == 0)
  }

  /** The consumer running alone until it is idle, the check fails or the listener throws. */
  function Consume(c: Config, s: State, f: Listener): State
    requires ValidConfig(c) && Coupled(c, s)
    decreases s.counter + s.claimed, s.counter
  {
    if Idle(s) then s
    else if s.claimed == 0 then Consume(c, Apply(c, s, ReadEvent), f)
    else if s.samples < c.frameSize then Apply(c, s, Take)
    else if f.Throws? && f.after == 0 then Thrown(c, s, f.late)
    else
      FrameFits(c, s);
      CoupledTake(c, s);
      Consume(c, Taken(c, s), OneLess(f))
  }

  lemma {:induction false} ConsumeIsRun(c: Config, s: State, f: Listener) returns (steps: seq<Step>)
    requires ValidConfig(c) && Coupled(c, s)
    ensures Run(c, s, steps, Consume(c, s, f))
    ensures forall i | 0 <= i < |steps| :: !steps[i].Process?
    decreases s.counter + s.claimed, s.counter
  {
    if Idle(s) {
      steps := [];
    } else if s.claimed == 0 {
      var rest := ConsumeIsRun(c, Apply(c, s, ReadEvent), f);
      steps := [ReadEvent] + rest;
      assert steps[1..] == rest;
    } else if s.samples < c.frameSize {
      steps := [Take];
      assert steps[1..] == [];
    } else if f.Throws? && f.after == 0 {
      steps := [TakeThrows(f.late)];
      assert steps[1..] == [];
    } else {
      FrameFits(c, s);
      CoupledTake(c, s);
      var rest := ConsumeIsRun(c, Taken(c, s), OneLess(f));
      steps := [Take] + rest;
      assert steps[1..] == rest;
    }
  }

  /** The listener gets to throw. */
  predicate Interrupted(c: Config, s: State, f: Listener)
    requires ValidConfig(c)
  {
    f.Throws? && f.after < Quotient(s.samples, c.frameSize)
  }

  /** Left alone, the consumer takes every complete frame, or as many as the listener lets it; unless
      the listener throws, the check fails exactly if frames were announced in excess, and otherwise the
      consumer goes idle. */
  lemma {:induction false} ConsumerOutcome(c: Config, s: State, f: Listener)
    requires ValidConfig(c) && Coupled(c, s) && !s.failed && !s.aborted && s.dropped == 0 && Excess(c, s) >= 0
    ensures var r := Consume(c, s, f);
            && (r.aborted <==> Interrupted(c, s, f))
            && (r.failed <==> Excess(c, s) > 0 && !Interrupted(c, s, f))
            && |r.frames| == |s.frames| + (if Interrupted(c, s, f) then f.after else Quotient(s.samples, c.frameSize))
            && (!r.failed && !r.aborted ==> r.counter == 0 && r.claimed == 0 && r.samples < c.frameSize)
    decreases s.counter + s.claimed, s.counter
  {
    if s.claimed == 0 && s.counter == 0 {
    } else if s.claimed == 0 {
      ConsumerOutcome(c, Apply(c, s, ReadEvent), f);
    } else if s.samples >= c.frameSize && !(f.Throws? && f.after == 0) {
      FrameFits(c, s);
      CoupledTake(c, s);
      ConsumerOutcome(c, Taken(c, s), OneLess(f));
    }
  }

  /** Some call of `on_process` in the run starts with a complete frame still buffered. */
  ghost predicate FindsFrame(c: Config, s: State, steps: seq<Step>)
    requires ValidConfig(c)
    decreases |steps|
  {
    steps != [] && Enabled(c, s, steps[0])
    && ((steps[0].Process? && s.samples >= c.frameSize) || FindsFrame(c, Apply(c, s, steps[0]), steps[1..]))
  }

  lemma {:induction false} DebtCounts(c: Config, s: State, steps: seq<Step>, s': State)
    requires ValidConfig(c) && Run(c, s, steps, s')
    ensures s'.debt >= s.debt
    ensures s'.debt > s.debt <==> FindsFrame(c, s, steps)
    decreases |steps|
  {
    if steps != [] {
      DebtCounts(c, Apply(c, s, steps[0]), steps[1..], s');
    }
  }

  lemma {:induction false} FailureNeedsDebt(c: Config, s: State, steps: seq<Step>, s': State)
    requires ValidConfig(c) && Inv(c, s) && !s.failed && Run(c, s, steps, s') && s'.failed
    ensures s'.debt > 0
    decreases |steps|
  {
    if steps != [] {
      StepKeepsInv(c, s, steps[0]);
      var mid := Apply(c, s, steps[0]);
      if !mid.failed {
        FailureNeedsDebt(c, mid, steps[1..], s');
      }
    }
  }

  /** Exactly which runs satisfy the check: if no `on_process` finds a complete frame buffered it
      never fails, and once one has, the consumer left alone runs into it. */
  lemma ContractCheck(c: Config, steps: seq<Step>, s: State)
    requires ValidConfig(c) && Run(c, Init(c), steps, s)
    ensures !FindsFrame(c, Init(c), steps) ==> !s.failed
    ensures Coupled(c, s)
    ensures !s.aborted ==> (Consume(c, s, Works).failed <==> FindsFrame(c, Init(c), steps))
  {
    RunKeepsInv(c, Init(c), steps, s);
    DebtCounts(c, Init(c), steps, s);
    if s.failed { FailureNeedsDebt(c, Init(c), steps, s); } else if !s.aborted { ConsumerOutcome(c, s, Works); }
  }

  lemma {:induction false} RunAppend(c: Config, s: State, a: seq<Step>, mid: State, b: seq<Step>, s': State)
    requires ValidConfig(c) && Run(c, s, a, mid) && Run(c, mid, b, s')
    ensures Run(c, s, a + b, s')
    decreases |a|
  {
    if a == [] {
      assert a + b == b;
    } else {
      assert (a + b)[1..] == a[1..] + b;
      RunAppend(c, Apply(c, s, a[0]), a[1..], mid, b, s');
    }
  }

  lemma RunTwo(c: Config, s: State, x: Step, y: Step)
    requires ValidConfig(c) && Enabled(c, s, x) && Enabled(c, Apply(c, s, x), y)
    ensures Run(c, s, [x, y], Apply(c, Apply(c, s, x), y))
    ensures y.Process? && Apply(c, s, x).samples >= c.frameSize ==> FindsFrame(c, s, [x, y])
  {
    assert [x, y][1..] == [y] && [y][1..] == [];
    assert Run(c, Apply(c, s, x), [y], Apply(c, Apply(c, s, x), y));
  }

  /** Whatever the format and the frame size: two quanta captured before the consumer runs, the first
      of at least one frame, announce more frames than there are, and the consumer fails the check. */
  lemma TwoQuantaBeforeDispatch(c: Config, q: seq<seq<Byte>>, q': seq<seq<Byte>>)
    returns (steps: seq<Step>, s: State)
    requires ValidConfig(c) && ValidQuantum(c, q) && ValidQuantum(c, q')
    requires SampleCount(c.format, |q[0]|) >= c.frameSize
    ensures Run(c, Init(c), [Process(q), Process(q')] + steps, s) && s.failed
    ensures forall i | 0 <= i < |steps| :: !steps[i].Process?
  {
    var mid := Apply(c, Apply(c, Init(c), Process(q)), Process(q'));
    RunTwo(c, Init(c), Process(q), Process(q'));
    ContractCheck(c, [Process(q), Process(q')], mid);
    steps := ConsumeIsRun(c, mid, Works);
    s := Consume(c, mid, Works);
    RunAppend(c, Init(c), [Process(q), Process(q')], mid, steps, s);
  }
}
