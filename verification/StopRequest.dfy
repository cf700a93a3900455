/** `request_stop` against the sleeping event loop: the flag, the eventfd that ends the sleep, and
    any number of threads that ask, interleaved with the loop of `Context::run`. */
module StopRequest {

  datatype Loop = Outside | Checking | Ticking | Sleeping | Reading

  /** `writing` counts the threads that have set the flag and not yet written to the eventfd. */
  datatype State = State(flag: bool, open: bool, counter: nat, writing: nat, loop: Loop)

  const INITIAL := State(false, false, 0, 0, Outside)

  datatype Step =
    | SetFlag | WriteEvent            // the two statements of `request_stop`
    | Enter | Check | Tick            // `run` up to its poll
    | Expire                          // the poll ends by its timeout, or for another descriptor
    | Wake | Read                     // the poll ends for the eventfd, which is then read

  predicate Enabled(s: State, step: Step) {
    match step
    case SetFlag => true
    case WriteEvent => s.writing > 0
    case Enter => s.loop == Outside
    case Check => s.loop == Checking
    case Tick => s.loop == Ticking
    case Expire => s.loop == Sleeping
    case Wake => s.loop == Sleeping && s.counter > 0
    case Read => s.loop == Reading
  }

  function Apply(s: State, step: Step): State
    requires Enabled(s, step)
  {
    match step
    case SetFlag => s.(flag := true, writing := s.writing + 1)
    case WriteEvent => s.(writing := s.writing - 1, counter := if s.open then s.counter + 1 else s.counter)
    case Enter => s.(open := true, counter := 0, loop := Checking)
    case Check => if s.flag then s.(flag := false, open := false, loop := Outside) else s.(loop := Ticking)
    case Tick => s.(loop := Sleeping)
    case Expire => s.(loop := Checking)
    case Wake => s.(loop := Reading)
    case Read => s.(counter := 0, loop := Checking)
  }

  ghost predicate Run(s: State, steps: seq<Step>, s': State)
    decreases |steps|
  {
    if steps == [] then s' == s
    else Enabled(s, steps[0]) && Run(Apply(s, steps[0]), steps[1..], s')
  }

  /** A stop asked for since the loop last looked is, or will be, announced by the eventfd. */
  ghost predicate Announced(s: State) {
    && (s.loop != Outside ==> s.open)
    && (s.flag && (s.loop == Ticking || s.loop == Sleeping) ==> s.counter > 0 || s.writing > 0)
  }

  lemma {:induction false} RunKeepsAnnounced(s: State, steps: seq<Step>, s': State)
    requires Announced(s) && Run(s, steps, s')
    ensures Announced(s')
    decreases |steps|
  {
    if steps != [] { RunKeepsAnnounced(Apply(s, steps[0]), steps[1..], s'); }
  }

  /** No stop is slept through: in every interleaving, once the threads that asked have written, the
      eventfd is readable whenever the loop sleeps, so the poll does not wait for its timeout. */
  lemma NoStopSleptThrough(steps: seq<Step>, s: State)
    requires Run(INITIAL, steps, s) && s.loop == Sleeping && s.flag && s.writing == 0
    ensures Enabled(s, Wake)
  {
    RunKeepsAnnounced(INITIAL, steps, s);
  }

  /** How many steps the loop can still make once the flag is set. */
  function StepsLeft(loop: Loop): nat {
    match loop
    case Outside => 0
    case Checking => 1
    case Reading => 2
    case Sleeping => 3
    case Ticking => 4
  }

  predicate OfLoop(step: Step) {
    step != SetFlag && step != WriteEvent
  }

  function LoopSteps(steps: seq<Step>): nat {
    if steps == [] then 0 else (if OfLoop(steps[0]) then 1 else 0) + LoopSteps(steps[1..])
  }

  /** Some step of the run leaves the loop. */
  ghost predicate Leaves(s: State, steps: seq<Step>)
    decreases |steps|
  {
    steps != [] && Enabled(s, steps[0])
    && ((steps[0] == Check && s.flag) || Leaves(Apply(s, steps[0]), steps[1..]))
  }

  /** A stop is obeyed: whatever the other threads do, a loop whose flag is set leaves within four of
      its own steps, or has that many fewer to go. */
  lemma {:induction false} StopIsObeyed(s: State, steps: seq<Step>, s': State)
    requires s.flag && s.loop != Outside && Run(s, steps, s')
    ensures || Leaves(s, steps)
            || (s'.flag && s'.loop != Outside && LoopSteps(steps) + StepsLeft(s'.loop) <= StepsLeft(s.loop))
    decreases |steps|
  {
    if steps != [] && !(steps[0] == Check) { StopIsObeyed(Apply(s, steps[0]), steps[1..], s'); }
  }
}
