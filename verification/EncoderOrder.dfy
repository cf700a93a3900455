/** Order in every run, also those in which a dispatch throws: nothing overtakes anything, and a
    packet is missing exactly if writing it to the muxer failed. */
module EncoderOrder {
  import opened Common
  import opened EncoderPipeline
  import opened EncoderSafety
  import opened EncoderShutdown

  // ----- Subsequences

  /** `a` is what is left of `b` after some of its elements are removed. */
  ghost predicate Within<X>(a: seq<X>, b: seq<X>)
    decreases |b|
  {
    a == [] ||
    (b != [] && (Within(a, b[..|b| - 1])
                 || (a[|a| - 1] == b[|b| - 1] && Within(a[..|a| - 1], b[..|b| - 1]))))
  }

  lemma WithinGrows<X>(a: seq<X>, b: seq<X>, x: X)
    requires Within(a, b)
    ensures Within(a + [x], b + [x]) && Within(a, b + [x])
  {
    assert (a + [x])[..|a|] == a && (b + [x])[..|b|] == b;
  }

  lemma LastApart<X>(a: seq<X>, c: seq<X>)
    requires c != []
    ensures a + c[..|c| - 1] + [c[|c| - 1]] == a + c
  {
  }

  lemma {:induction false} WithinExtends<X>(a: seq<X>, b: seq<X>, c: seq<X>)
    requires Within(a, b)
    ensures Within(a + c, b + c)
    decreases |c|
  {
    if c == [] {
      assert a + c == a && b + c == b;
    } else {
      WithinExtends(a, b, c[..|c| - 1]);
      WithinGrows(a + c[..|c| - 1], b + c[..|c| - 1], c[|c| - 1]);
      LastApart(a, c);
      LastApart(b, c);
    }
  }

  /** Removing more keeps a subsequence. */
  lemma {:induction false} WithinLess<X>(a: seq<X>, t: seq<X>, b: seq<X>, p: seq<X>)
    requires Within(a + t + b, p)
    ensures Within(a + b, p)
    decreases |p|
  {
    var all := a + t + b;
    if a + b != [] {
      var p' := p[..|p| - 1];
      if Within(all, p') {
        WithinLess(a, t, b, p');
      } else if b != [] {
        var b' := b[..|b| - 1];
        assert all[..|all| - 1] == a + t + b' && (a + b)[..|a + b| - 1] == a + b';
        WithinLess(a, t, b', p');
      } else if t != [] {
        var t' := t[..|t| - 1];
        assert all[..|all| - 1] == a + t' + b;
        WithinLess(a, t', b, p');
      } else {
        assert all == a + b;
      }
    }
  }

  lemma {:induction false} WithinLength<X>(a: seq<X>, b: seq<X>)
    requires Within(a, b)
    ensures |a| <= |b| && (|a| == |b| ==> a == b)
    decreases |b|
  {
    if a != [] {
      var b' := b[..|b| - 1];
      if Within(a, b') {
        WithinLength(a, b');
      } else {
        WithinLength(a[..|a| - 1], b');
        assert a == a[..|a| - 1] + [a[|a| - 1]] && b == b' + [b[|b| - 1]];
      }
    }
  }

  // ----- Entries

  /** The entries that were drained or still will be. */
  ghost function Line(s: State): seq<Entry> {
    s.completed + (if s.media.Draining? then s.todo else []) + s.core.pending
  }

  lemma LineThrows(c: Config, s: State, d: MediaStep)
    requires MediaEnabled(s, d) && (d.ReceiveThrows? || d.MuxThrows?)
    requires Within(Line(s), s.pushed)
    ensures Within(Line(ApplyMedia(c, s, d)), s.pushed)
  {
    WithinLess(s.completed, s.todo, s.core.pending, s.pushed);
    assert Line(ApplyMedia(c, s, d)) == s.completed + [] + s.core.pending == s.completed + s.core.pending;
  }

  lemma LineSplice(c: Config, s: State)
    requires MediaEnabled(s, Splice)
    ensures Line(ApplyMedia(c, s, Splice)) == Line(s)
  {
    assert s.completed + s.core.pending + [] == s.completed + [] + s.core.pending;
  }

  lemma LineAgain(c: Config, s: State)
    requires MediaEnabled(s, ReceiveAgain)
    ensures Line(ApplyMedia(c, s, ReceiveAgain)) == Line(s)
  {
    assert s.completed + [s.todo[0]] + s.todo[1..] == s.completed + s.todo;
  }

  lemma LineMedia(c: Config, s: State, d: MediaStep)
    requires Phases(s) && MediaEnabled(s, d) && !d.ReceiveThrows? && !d.MuxThrows?
    ensures Line(ApplyMedia(c, s, d)) == Line(s)
  {
    match d
    case Splice => LineSplice(c, s);
    case ReceiveAgain => LineAgain(c, s);
    case OpenEvent => case InitThrows => case FillOne => case FillThrows => case FillDone =>
    case Wake => case ReadEvent =>
    case Receive => case Mux => case DrainDone => case ReturnOne => case ReturnDone =>
    case LeaveLoop => case PollThrows => case CloseEvent => case Clear =>
  }

  lemma LineProducer(c: Config, s: State, t: nat, p: ProducerStep)
    requires ProducerEnabled(c, s, t, p) && Within(Line(s), s.pushed)
    ensures Within(Line(ApplyProducer(c, s, t, p)), ApplyProducer(c, s, t, p).pushed)
  {
    if p.Push? {
      var e := s.threads[t].entry;
      WithinGrows(Line(s), s.pushed, e);
      assert Line(ApplyProducer(c, s, t, p)) == Line(s) + [e];
    } else {
      assert Line(ApplyProducer(c, s, t, p)) == Line(s);
    }
  }

  lemma LineMain(c: Config, s: State, m: MainStep)
    requires MainEnabled(c, s, m)
    ensures Line(ApplyMain(c, s, m)) == Line(s) && ApplyMain(c, s, m).pushed == s.pushed
  {
  }

  lemma LineKept(c: Config, s: State, step: Step)
    requires Phases(s) && Enabled(c, s, step) && Within(Line(s), s.pushed)
    ensures Within(Line(Apply(c, s, step)), Apply(c, s, step).pushed)
  {
    match step
    case OfProducer(t, p) => LineProducer(c, s, t, p);
    case OfMain(m) => LineMain(c, s, m);
    case OfMedia(d) => if d.ReceiveThrows? || d.MuxThrows? { LineThrows(c, s, d); } else { LineMedia(c, s, d); }
  }

  lemma {:induction false} LineOverRun(c: Config, s: State, steps: seq<Step>, s': State)
    requires Phases(s) && Within(Line(s), s.pushed) && Run(c, s, steps, s')
    ensures Within(Line(s'), s'.pushed)
    decreases |steps|
  {
    if steps != [] {
      PhasesKept(c, s, steps[0]);
      LineKept(c, s, steps[0]);
      LineOverRun(c, Apply(c, s, steps[0]), steps[1..], s');
    }
  }

  // ----- Packets

  /** This step fails to write a packet of codec `k`. */
  ghost predicate LosesFrom(s: State, step: Step, k: nat) {
    step == OfMedia(MuxThrows) && s.todo != [] && s.todo[0].codec == k
  }

  /** How many writes of packets of codec `k` fail in the run. */
  ghost function Losses(c: Config, s: State, steps: seq<Step>, k: nat): nat
    decreases |steps|
  {
    if steps == [] || !Enabled(c, s, steps[0]) then 0
    else (if LosesFrom(s, steps[0], k) then 1 else 0) + Losses(c, Apply(c, s, steps[0]), steps[1..], k)
  }

  lemma LossStep(c: Config, s: State, k: nat)
    requires Wired(c, s) && Phases(s) && MediaEnabled(s, MuxThrows) && k < |c.streams|
    requires Wired(c, ApplyMedia(c, s, MuxThrows)) && Within(Delivered(c, s, k), s.produced[k])
    ensures var s', lost := ApplyMedia(c, s, MuxThrows), if s.todo[0].codec == k then 1 else 0;
            && s'.produced == s.produced && |Delivered(c, s', k)| == |Delivered(c, s, k)| - lost
            && Within(Delivered(c, s', k), s.produced[k])
  {
    var muxed, out := OfStream(s.core.muxed, c.streams[k]), s.core.out[k];
    WithinLess(muxed, InFlight(s, k), out, s.produced[k]);
    assert muxed + [] + out == muxed + out;
  }

  /** Nothing but failed writes is missing from what came from codec `k`. */
  ghost predicate Missing(c: Config, s: State, k: nat, lost: int)
    requires Wired(c, s) && k < |c.streams|
  {
    Within(Delivered(c, s, k), s.produced[k]) && |s.produced[k]| == |Delivered(c, s, k)| + lost
  }

  lemma MissingProducer(c: Config, s: State, t: nat, p: ProducerStep, k: nat, lost: int)
    requires Wired(c, s) && Phases(s) && ProducerEnabled(c, s, t, p) && k < |c.streams|
    requires Wired(c, ApplyProducer(c, s, t, p)) && Missing(c, s, k, lost)
    ensures Missing(c, ApplyProducer(c, s, t, p), k, lost)
  {
    DeliveredProducer(c, s, t, p, k);
    WithinExtends(Delivered(c, s, k), s.produced[k], Sent(s, t, p, k));
  }

  lemma MissingMedia(c: Config, s: State, d: MediaStep, k: nat, lost: int)
    requires Wired(c, s) && Phases(s) && MediaEnabled(s, d) && k < |c.streams|
    requires Wired(c, ApplyMedia(c, s, d)) && Missing(c, s, k, lost)
    ensures Missing(c, ApplyMedia(c, s, d), k, lost + if LosesFrom(s, OfMedia(d), k) then 1 else 0)
  {
    if d.MuxThrows? { LossStep(c, s, k); } else { DeliveredMedia(c, s, d, k); }
  }

  lemma MissingMain(c: Config, s: State, m: MainStep, k: nat, lost: int)
    requires Wired(c, s) && MainEnabled(c, s, m) && k < |c.streams|
    requires Wired(c, ApplyMain(c, s, m)) && Missing(c, s, k, lost)
    ensures Missing(c, ApplyMain(c, s, m), k, lost)
  {
    DeliveredMain(c, s, m, k);
  }

  lemma MissingKept(c: Config, s: State, step: Step, k: nat, lost: int)
    requires Wired(c, s) && Phases(s) && Enabled(c, s, step) && k < |c.streams|
    requires Wired(c, Apply(c, s, step)) && Missing(c, s, k, lost)
    ensures Missing(c, Apply(c, s, step), k, lost + if LosesFrom(s, step, k) then 1 else 0)
  {
    match step
    case OfProducer(t, p) => MissingProducer(c, s, t, p, k, lost);
    case OfMain(m) => MissingMain(c, s, m, k, lost);
    case OfMedia(d) => MissingMedia(c, s, d, k, lost);
  }

  lemma {:induction false} MissingOverRun(c: Config, s: State, steps: seq<Step>, s': State, k: nat, lost: int)
    requires Wired(c, s) && Phases(s) && Run(c, s, steps, s') && k < |c.streams| && Missing(c, s, k, lost)
    ensures Wired(c, s') && Missing(c, s', k, lost + Losses(c, s, steps, k))
    decreases |steps|
  {
    if steps != [] {
      PhasesKept(c, s, steps[0]);
      WiredKept(c, s, steps[0]);
      MissingKept(c, s, steps[0], k, lost);
      MissingOverRun(c, Apply(c, s, steps[0]), steps[1..], s', k, lost + if LosesFrom(s, steps[0], k) then 1 else 0);
    }
  }

  // ----- Packets that no entry names

  /** This step gives up a dispatch that still had to drain codec `k`. */
  ghost predicate Abandons(s: State, step: Step, k: nat) {
    (step == OfMedia(ReceiveThrows) || step == OfMedia(MuxThrows)) && Names(s.todo, k)
  }

  /** This step finds codec `k` empty. */
  ghost predicate FindsEmpty(s: State, step: Step, k: nat) {
    step == OfMedia(ReceiveAgain) && s.todo != [] && s.todo[0].codec == k
  }

  /** Whether codec `k` was given up by a dispatch that threw, and not found empty since then. */
  ghost predicate GivenUpBy(s: State, step: Step, k: nat, before: bool) {
    Abandons(s, step, k) || (before && !FindsEmpty(s, step, k))
  }

  ghost predicate GivenUp(c: Config, s: State, steps: seq<Step>, k: nat, before: bool)
    decreases |steps|
  {
    if steps == [] || !Enabled(c, s, steps[0]) then before
    else GivenUp(c, Apply(c, s, steps[0]), steps[1..], k, GivenUpBy(s, steps[0], k, before))
  }

  ghost predicate Named(s: State, k: nat) {
    Names(s.core.pending, k) || (s.media.Draining? && Names(s.todo, k))
  }

  /** What codec `k` holds is going to be drained, or was given up. */
  ghost predicate Traced(s: State, k: nat, givenUp: bool) {
    HasPacket(s.core, k) ==> Named(s, k) || givenUp
  }

  lemma TracedMedia(c: Config, s: State, d: MediaStep, k: nat, givenUp: bool)
    requires Phases(s) && MediaEnabled(s, d) && Traced(s, k, givenUp)
    ensures Traced(ApplyMedia(c, s, d), k, GivenUpBy(s, OfMedia(d), k, givenUp))
  {
    match d
    case ReceiveAgain =>
      if HasPacket(s.core, k) && Names(s.todo, k) { NamesTail(s.todo, k); }
    case OpenEvent => case InitThrows => case FillOne => case FillThrows => case FillDone => case Wake =>
    case ReadEvent => case Splice => case Receive => case ReceiveThrows => case Mux => case MuxThrows =>
    case DrainDone => case ReturnOne => case ReturnDone =>
    case LeaveLoop => case PollThrows => case CloseEvent => case Clear =>
  }

  lemma TracedProducer(c: Config, s: State, t: nat, p: ProducerStep, k: nat, givenUp: bool)
    requires ProducerEnabled(c, s, t, p) && Traced(s, k, givenUp)
    ensures Traced(ApplyProducer(c, s, t, p), k, givenUp)
  {
    if p.Push? { NamesAppend(s.core.pending, s.threads[t].entry); }
  }

  lemma TracedKept(c: Config, s: State, step: Step, k: nat, givenUp: bool)
    requires Phases(s) && Enabled(c, s, step) && Traced(s, k, givenUp)
    ensures Traced(Apply(c, s, step), k, GivenUpBy(s, step, k, givenUp))
  {
    match step
    case OfProducer(t, p) => TracedProducer(c, s, t, p, k, givenUp);
    case OfMain(m) => assert Named(ApplyMain(c, s, m), k) == Named(s, k);
    case OfMedia(d) => TracedMedia(c, s, d, k, givenUp);
  }

  lemma {:induction false} TracedOverRun(c: Config, s: State, steps: seq<Step>, s': State, k: nat, givenUp: bool)
    requires Phases(s) && Run(c, s, steps, s') && Traced(s, k, givenUp)
    ensures Traced(s', k, GivenUp(c, s, steps, k, givenUp))
    decreases |steps|
  {
    if steps != [] {
      PhasesKept(c, s, steps[0]);
      TracedKept(c, s, steps[0], k, givenUp);
      TracedOverRun(c, Apply(c, s, steps[0]), steps[1..], s', k, GivenUpBy(s, steps[0], k, givenUp));
    }
  }

  // ----- Main results

  /** In every run a codec that can deliver a packet is named by an entry still to be drained, or was
      named by the rest of a dispatch that threw and has not been drained since. */
  lemma PacketsAreTraced(c: Config, producers: nat, steps: seq<Step>, s: State, k: nat)
    requires Run(c, Init(c, producers), steps, s) && k < |s.core.out| && s.core.out[k] != []
    ensures || (exists e :: e in s.core.pending && e.codec == k)
            || (s.media.Draining? && exists e :: e in s.todo && e.codec == k)
            || GivenUp(c, Init(c, producers), steps, k, false)
  {
    TracedOverRun(c, Init(c, producers), steps, s, k, false);
    if Names(s.core.pending, k) {
      var i :| 0 <= i < |s.core.pending| && s.core.pending[i].codec == k;
    } else if Names(s.todo, k) {
      var i :| 0 <= i < |s.todo| && s.todo[i].codec == k;
    }
  }

  /** In every run entries are drained in the order they were pushed, some perhaps skipped. */
  lemma EntriesInOrder(c: Config, s: State)
    requires ValidConfig(c) && Reachable(c, s)
    ensures Within(s.completed, s.pushed)
  {
    var producers: nat, steps :| Run(c, Init(c, producers), steps, s);
    LineOverRun(c, Init(c, producers), steps, s);
    var rest := (if s.media.Draining? then s.todo else []) + s.core.pending;
    assert s.completed + rest + [] == Line(s) && s.completed + [] == s.completed;
    WithinLess(s.completed, rest, [], s.pushed);
  }

  /** In every run each stream gets packets of its codec in the codec's order, none twice, and
      exactly as many are missing as writes of them failed; so nothing is missing if and only if no
      write failed. */
  lemma PacketsInOrder(c: Config, producers: nat, steps: seq<Step>, s: State, k: nat)
    requires ValidConfig(c) && Run(c, Init(c, producers), steps, s) && k < |c.streams|
    ensures Wired(c, s)
    ensures Within(OfStream(s.core.muxed, c.streams[k]), s.produced[k])
    ensures |s.produced[k]| == |Delivered(c, s, k)| + Losses(c, Init(c, producers), steps, k)
    ensures Delivered(c, s, k) == s.produced[k] <==> Losses(c, Init(c, producers), steps, k) == 0
  {
    InitInv(c, producers);
    MissingOverRun(c, Init(c, producers), steps, s, k, 0);
    WithinLength(Delivered(c, s, k), s.produced[k]);
    MuxedWithin(c, s, k);
  }

  lemma MuxedWithin(c: Config, s: State, k: nat)
    requires Wired(c, s) && k < |c.streams| && Within(Delivered(c, s, k), s.produced[k])
    ensures Within(OfStream(s.core.muxed, c.streams[k]), s.produced[k])
  {
    var muxed, rest := OfStream(s.core.muxed, c.streams[k]), InFlight(s, k) + s.core.out[k];
    assert muxed + rest + [] == Delivered(c, s, k) && muxed + [] == muxed;
    WithinLess(muxed, rest, [], s.produced[k]);
  }
}
