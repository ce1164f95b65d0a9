/** The subprocess driver (`monitor/driver.py`) as a state machine: the thread in `run`, any
    number of concurrent calls of `stop` and `bounce`, and child processes that print, close
    their output and exit when they please. Every read and write of the shared flag and of
    `_proc` is a step of its own, and reading waits for what the child does. */
module Driver {
  import opened Text

  /** `terminated` records that the child was asked to terminate. */
  datatype Child = Running(terminated: bool) | Exited | Reaped

  /** What the youngest child has printed and not yet been read, and whether it may print more. */
  datatype Pipe = Pipe(pending: nat, open: bool)

  datatype Why = Stopped | GaveUp | SpawnFailed | ReadFailed

  /** Where the `run` thread is; `child` is the one it is busy with. */
  datatype Pc =
    | AtHead                   // about to test the stop flag
    | Spawning                 // flag was clear; about to start a child
    | Publishing(child: nat)   // child started; about to assign `_proc`
    | Reading(child: nat)      // waiting for a line or the end of the stream
    | Handling(child: nat)     // flag was clear; about to call the line handler
    | Reaping(child: nat, raised: bool)   // in `wait`, possibly because reading raised
    | AfterReap                // about to test the flag again and count the restart
    | Sleeping
    | Ended(why: Why)

  /** A call of `stop` (after it set the flag) or `bounce`, until it has done its work. */
  datatype Call = NeedsProc | Holding(target: Option<nat>) | Finished

  datatype State = State(
    pc: Pc,
    stop: bool,
    proc: Option<nat>,
    children: seq<Child>,
    pipe: Pipe,
    restarts: nat,
    calls: seq<Call>,
    spawnsAfterStop: nat,
    linesAfterStop: nat)

  const START := State(AtHead, false, None, [], Pipe(0, false), 0, [], 0, 0)

  datatype Step =
    | TestHead | Spawn(ok: bool) | Publish | GetLine | EndOfStream | ReadFails | Handle | Reap | CountRestart | Wake
    | ChildPrints | ChildCloses | ChildExits(child: nat)
    | CallStop | CallBounce | LoadProc(call: nat) | Terminate(call: nat)

  predicate Enabled(s: State, step: Step) {
    match step
    case TestHead => s.pc.AtHead?
    case Spawn(_) => s.pc.Spawning?
    case Publish => s.pc.Publishing?
    case GetLine => s.pc.Reading? && s.pipe.pending > 0
    case EndOfStream => s.pc.Reading? && s.pipe.pending == 0 && !s.pipe.open
    case ReadFails => s.pc.Reading?
    case Handle => s.pc.Handling?
    case Reap => s.pc.Reaping? && s.pc.child < |s.children| && s.children[s.pc.child] == Exited
    case CountRestart => s.pc.AfterReap?
    case Wake => s.pc.Sleeping?
    case ChildPrints => s.pipe.open
    case ChildCloses => s.pipe.open
    case ChildExits(c) => c < |s.children| && s.children[c].Running?
    case CallStop => true
    case CallBounce => true
    case LoadProc(i) => i < |s.calls| && s.calls[i].NeedsProc?
    case Terminate(i) => i < |s.calls| && s.calls[i].Holding?
  }

  predicate OfRun(step: Step) {
    match step
    case TestHead | Spawn(_) | Publish | GetLine | EndOfStream | ReadFails | Handle | Reap | CountRestart | Wake => true
    case _ => false
  }

  function Asked(children: seq<Child>, target: Option<nat>): seq<Child> {
    if target.Some? && target.value < |children| && children[target.value].Running?
    then children[target.value := Running(true)]
    else children
  }

  function Next(s: State, step: Step, maxRestarts: Option<int>): State
    requires Enabled(s, step)
  {
    match step
    case TestHead => s.(pc := if s.stop then Ended(Stopped) else Spawning)
    case Spawn(ok) =>
      if !ok then s.(pc := Ended(SpawnFailed))
      else s.(pc := Publishing(|s.children|), children := s.children + [Running(false)],
              pipe := Pipe(0, true),
              spawnsAfterStop := s.spawnsAfterStop + if s.stop then 1 else 0)
    case Publish => s.(pc := Reading(s.pc.child), proc := Some(s.pc.child))
    case GetLine =>
      s.(pc := if s.stop then Reaping(s.pc.child, false) else Handling(s.pc.child),
         pipe := s.pipe.(pending := s.pipe.pending - 1))
    case EndOfStream => s.(pc := Reaping(s.pc.child, false))
    case ReadFails => s.(pc := Reaping(s.pc.child, true))
    case Handle => s.(pc := Reading(s.pc.child), linesAfterStop := s.linesAfterStop + if s.stop then 1 else 0)
    case Reap =>
      s.(pc := if s.pc.raised then Ended(ReadFailed) else AfterReap, children := s.children[s.pc.child := Reaped])
    case CountRestart =>
      if s.stop then s.(pc := Ended(Stopped))
      else s.(restarts := s.restarts + 1,
              pc := if maxRestarts.Some? && s.restarts + 1 > maxRestarts.value then Ended(GaveUp) else Sleeping)
    case Wake => s.(pc := AtHead)
    case ChildPrints => s.(pipe := s.pipe.(pending := s.pipe.pending + 1))
    case ChildCloses => s.(pipe := s.pipe.(open := false))
    case ChildExits(c) =>
      s.(children := s.children[c := Exited],
         pipe := if c == |s.children| - 1 then s.pipe.(open := false) else s.pipe)
    case CallStop => s.(stop := true, calls := s.calls + [NeedsProc])
    case CallBounce => s.(calls := s.calls + [NeedsProc])
    case LoadProc(i) => s.(calls := s.calls[i := Holding(s.proc)])
    case Terminate(i) => s.(calls := s.calls[i := Finished], children := Asked(s.children, s.calls[i].target))
  }

  predicate Possible(s: State, steps: seq<Step>, maxRestarts: Option<int>)
    decreases |steps|
  {
    steps == [] || (Enabled(s, steps[0]) && Possible(Next(s, steps[0], maxRestarts), steps[1..], maxRestarts))
  }

  function After(s: State, steps: seq<Step>, maxRestarts: Option<int>): State
    requires Possible(s, steps, maxRestarts)
    decreases |steps|
  {
    if steps == [] then s else After(Next(s, steps[0], maxRestarts), steps[1..], maxRestarts)
  }

  lemma StepFirst(s: State, step: Step, steps: seq<Step>, maxRestarts: Option<int>)
    requires Enabled(s, step) && Possible(Next(s, step, maxRestarts), steps, maxRestarts)
    ensures Possible(s, [step] + steps, maxRestarts)
    ensures After(s, [step] + steps, maxRestarts) == After(Next(s, step, maxRestarts), steps, maxRestarts)
  {
    assert ([step] + steps)[1..] == steps;
  }

  // --- the invariant ----------------------------------------------------------

  function Current(pc: Pc): Option<nat> {
    match pc
    case Publishing(c) => Some(c)
    case Reading(c) => Some(c)
    case Handling(c) => Some(c)
    case Reaping(c, _) => Some(c)
    case _ => None
  }

  function Bound(maxRestarts: Option<int>): int
    requires maxRestarts.Some?
  {
    if maxRestarts.value < 0 then 0 else maxRestarts.value
  }

  ghost predicate Inv(s: State, maxRestarts: Option<int>) {
    // only the current child may be unreaped, it is the youngest, and `_proc` names it
    && (forall c :: 0 <= c < |s.children| && Current(s.pc) != Some(c) ==> s.children[c] == Reaped)
    && (Current(s.pc).Some? ==> Current(s.pc).value == |s.children| - 1 && s.children[Current(s.pc).value] != Reaped)
    && (s.pipe.open ==> Current(s.pc).Some? && s.children[Current(s.pc).value].Running?)
    && (Current(s.pc).Some? && !s.pc.Publishing? ==> s.proc == Current(s.pc))
    && (s.proc.Some? ==> s.proc.value < |s.children|)
    && (s.pc.Publishing? ==> s.proc != Current(s.pc))
    // children are counted by restarts
    && |s.children| <= s.restarts + 1
    && (s.pc.AtHead? || s.pc.Spawning? || s.pc.Sleeping? || s.pc == Ended(GaveUp) ==> |s.children| == s.restarts)
    && (Current(s.pc).Some? || s.pc.AfterReap? || s.pc == Ended(ReadFailed) ==> |s.children| == s.restarts + 1)
    && (maxRestarts.Some? && s.pc != Ended(GaveUp) ==> s.restarts <= Bound(maxRestarts))
    && (maxRestarts.Some? && s.pc == Ended(GaveUp) ==> s.restarts <= Bound(maxRestarts) + 1)
    // why the loop ends
    && (s.pc == Ended(Stopped) ==> s.stop)
    && (s.pc == Ended(GaveUp) ==> maxRestarts.Some? && s.restarts > maxRestarts.value)
    // what the flag still lets through
    && (!s.stop ==> s.spawnsAfterStop == 0 && s.linesAfterStop == 0)
    && s.spawnsAfterStop <= 1 && s.linesAfterStop <= 1
    && (s.spawnsAfterStop == 1 ==> !s.pc.Spawning? && !s.pc.AtHead? && !s.pc.Sleeping? && !s.pc.Handling?)
    && (s.linesAfterStop == 1 ==> !s.pc.Spawning? && !s.pc.Handling?)
  }

  lemma RunStepKeepsInv(s: State, step: Step, maxRestarts: Option<int>)
    requires Inv(s, maxRestarts) && Enabled(s, step) && OfRun(step)
    ensures Inv(Next(s, step, maxRestarts), maxRestarts)
  {
  }

  lemma OtherStepKeepsInv(s: State, step: Step, maxRestarts: Option<int>)
    requires Inv(s, maxRestarts) && Enabled(s, step) && !OfRun(step)
    ensures Inv(Next(s, step, maxRestarts), maxRestarts)
  {
  }

  lemma StepKeepsInv(s: State, step: Step, maxRestarts: Option<int>)
    requires Inv(s, maxRestarts) && Enabled(s, step)
    ensures Inv(Next(s, step, maxRestarts), maxRestarts)
  {
    if OfRun(step) {
      RunStepKeepsInv(s, step, maxRestarts);
    } else {
      OtherStepKeepsInv(s, step, maxRestarts);
    }
  }

  lemma {:induction false} RunKeepsInv(s: State, steps: seq<Step>, maxRestarts: Option<int>)
    requires Inv(s, maxRestarts) && Possible(s, steps, maxRestarts)
    ensures Inv(After(s, steps, maxRestarts), maxRestarts)
    decreases |steps|
  {
    if steps != [] {
      StepKeepsInv(s, steps[0], maxRestarts);
      RunKeepsInv(Next(s, steps[0], maxRestarts), steps[1..], maxRestarts);
    }
  }

  // --- safety over every interleaving -----------------------------------------

  /** Under every interleaving: at most one child is unreaped, at most `maxRestarts + 1` children
      are ever started, at most one after the flag is set, at most one line is handled after it,
      and the loop ends only because of the flag, the restart bound, a failed start or a failed
      read, with every child reaped. */
  lemma DriverSafety(steps: seq<Step>, maxRestarts: Option<int>)
    requires Possible(START, steps, maxRestarts)
    ensures var s := After(START, steps, maxRestarts);
            && (forall c, d | 0 <= c < |s.children| && 0 <= d < |s.children| ::
                  s.children[c] != Reaped && s.children[d] != Reaped ==> c == d)
            && (maxRestarts.Some? ==> |s.children| <= Bound(maxRestarts) + 1)
            && s.spawnsAfterStop <= 1 && s.linesAfterStop <= 1
            && (s.pc.Ended? ==> || (s.pc.why == Stopped && s.stop)
                                || (s.pc.why == GaveUp && maxRestarts.Some? && s.restarts > maxRestarts.value)
                                || s.pc.why == SpawnFailed || s.pc.why == ReadFailed)
            && (s.pc.Ended? ==> forall c :: 0 <= c < |s.children| ==> s.children[c] == Reaped)
  {
    RunKeepsInv(START, steps, maxRestarts);
  }

  // --- what the loop sees of stop and bounce ----------------------------------

  /** A run without the calls: of `stop` only the flag is left, of `bounce` nothing. */
  function WithoutCalls(steps: seq<Step>): seq<Step> {
    if steps == [] then []
    else if steps[0].CallBounce? || steps[0].LoadProc? || steps[0].Terminate? then WithoutCalls(steps[1..])
    else [steps[0]] + WithoutCalls(steps[1..])
  }

  /** The states agree but for calls under way and which children were asked to terminate. */
  predicate SameToLoop(s: State, t: State) {
    && t == s.(calls := t.calls, children := t.children)
    && |t.children| == |s.children|
    && forall c :: 0 <= c < |s.children| ==>
         t.children[c] == s.children[c] || (t.children[c].Running? && s.children[c].Running?)
  }

  lemma SameToLoopAfterCall(s: State, t: State, step: Step, maxRestarts: Option<int>)
    requires SameToLoop(s, t) && Enabled(s, step) && (step.CallBounce? || step.LoadProc? || step.Terminate?)
    ensures SameToLoop(Next(s, step, maxRestarts), t)
  {
  }

  lemma SameToLoopAfterStep(s: State, t: State, step: Step, maxRestarts: Option<int>)
    requires SameToLoop(s, t) && Enabled(s, step) && !(step.CallBounce? || step.LoadProc? || step.Terminate?)
    ensures Enabled(t, step) && SameToLoop(Next(s, step, maxRestarts), Next(t, step, maxRestarts))
  {
  }

  /** Bounces, and what `stop` does after setting the flag, reach the loop only through the child:
      take them out of any run and the rest is still a run, with the same loop, flag, counters,
      output and exits. */
  lemma {:induction false} CallsActThroughChildren(s: State, t: State, steps: seq<Step>, maxRestarts: Option<int>)
    requires SameToLoop(s, t) && Possible(s, steps, maxRestarts)
    ensures Possible(t, WithoutCalls(steps), maxRestarts)
    ensures SameToLoop(After(s, steps, maxRestarts), After(t, WithoutCalls(steps), maxRestarts))
    decreases |steps|
  {
    if steps != [] {
      var step := steps[0];
      if step.CallBounce? || step.LoadProc? || step.Terminate? {
        SameToLoopAfterCall(s, t, step, maxRestarts);
        CallsActThroughChildren(Next(s, step, maxRestarts), t, steps[1..], maxRestarts);
      } else {
        SameToLoopAfterStep(s, t, step, maxRestarts);
        CallsActThroughChildren(Next(s, step, maxRestarts), Next(t, step, maxRestarts), steps[1..], maxRestarts);
        assert ([step] + WithoutCalls(steps[1..]))[1..] == WithoutCalls(steps[1..]);
      }
    }
  }

  // --- where the loop can be held up ------------------------------------------

  /** The `run` thread has not ended and nothing but a failing read could move it. */
  ghost predicate HeldUp(s: State) {
    !s.pc.Ended? && forall step :: OfRun(step) && step != ReadFails ==> !Enabled(s, step)
  }

  /** The thread waits for a line, or in `wait`. */
  predicate Waiting(s: State) {
    (s.pc.Reading? && s.pipe == Pipe(0, true)) || s.pc.Reaping?
  }

  /** The thread is held up exactly while its child has not exited and it either reads, with
      nothing printed and the output still open, or is in `wait`. */
  lemma HeldUpExactly(s: State, maxRestarts: Option<int>)
    requires Inv(s, maxRestarts)
    ensures HeldUp(s) <==> Waiting(s) && s.children[s.pc.child].Running?
  {
    if HeldUp(s) {
      assert !Enabled(s, TestHead) && !Enabled(s, Spawn(true)) && !Enabled(s, Publish) && !Enabled(s, GetLine)
        && !Enabled(s, EndOfStream) && !Enabled(s, Handle) && !Enabled(s, Reap) && !Enabled(s, CountRestart)
        && !Enabled(s, Wake);
    }
  }

  // --- after the flag is set --------------------------------------------------

  /** How many steps of its own the `run` thread can still take once the flag is set. */
  function StepsLeft(pc: Pc): nat {
    match pc
    case Spawning => 5
    case Publishing(_) => 4
    case Handling(_) => 4
    case Reading(_) => 3
    case Reaping(_, _) => 2
    case Sleeping => 2
    case AfterReap => 1
    case AtHead => 1
    case Ended(_) => 0
  }

  function RunSteps(steps: seq<Step>): nat {
    if steps == [] then 0 else (if OfRun(steps[0]) then 1 else 0) + RunSteps(steps[1..])
  }

  lemma {:induction false} FewStepsLeft(s: State, steps: seq<Step>, maxRestarts: Option<int>)
    requires s.stop && Possible(s, steps, maxRestarts)
    ensures var s' := After(s, steps, maxRestarts);
            s'.stop && RunSteps(steps) + StepsLeft(s'.pc) <= StepsLeft(s.pc)
    decreases |steps|
  {
    if steps != [] {
      FewStepsLeft(Next(s, steps[0], maxRestarts), steps[1..], maxRestarts);
    }
  }

  /** Once the flag is set the `run` thread takes at most five more steps, whatever else happens.
      Until it has ended it can only be held up waiting for output or an exit of a child that
      has not exited. */
  lemma StopIsPrompt(s: State, steps: seq<Step>, maxRestarts: Option<int>)
    requires Inv(s, maxRestarts) && s.stop && Possible(s, steps, maxRestarts)
    ensures var s' := After(s, steps, maxRestarts);
            && s'.stop && RunSteps(steps) + StepsLeft(s'.pc) <= 5
            && (HeldUp(s') <==> Waiting(s') && s'.pc.child < |s'.children| && s'.children[s'.pc.child].Running?)
  {
    FewStepsLeft(s, steps, maxRestarts);
    RunKeepsInv(s, steps, maxRestarts);
    HeldUpExactly(After(s, steps, maxRestarts), maxRestarts);
  }

  /** All five can be needed: the flag is set right after the loop tested it. */
  lemma FiveStepsCanHappen(maxRestarts: Option<int>)
    ensures exists s, steps :: && Inv(s, maxRestarts) && s.stop && Possible(s, steps, maxRestarts) && RunSteps(steps)
              == 5
  {
    var s := State(Spawning, true, None, [], Pipe(0, false), 0, [], 0, 0);
    var s1 := Next(s, Spawn(true), maxRestarts);
    var s2 := Next(s1, Publish, maxRestarts);
    var steps := ThreeFromReading(s2, maxRestarts);
    CountFirst(s1, Publish, steps, maxRestarts);
    CountFirst(s, Spawn(true), [Publish] + steps, maxRestarts);
  }

  lemma ThreeFromReading(s: State, maxRestarts: Option<int>) returns (steps: seq<Step>)
    requires s.stop && s.pc == Reading(0) && s.children == [Running(false)] && s.pipe == Pipe(0, true)
    ensures Possible(s, steps, maxRestarts) && RunSteps(steps) == 3
  {
    var s1 := Next(s, ChildExits(0), maxRestarts);
    var s2 := Next(s1, EndOfStream, maxRestarts);
    var s3 := Next(s2, Reap, maxRestarts);
    CountFirst(s3, CountRestart, [], maxRestarts);
    CountFirst(s2, Reap, [CountRestart] + [], maxRestarts);
    steps := [Reap] + ([CountRestart] + []);
    CountFirst(s1, EndOfStream, steps, maxRestarts);
    CountFirst(s, ChildExits(0), [EndOfStream] + steps, maxRestarts);
    steps := [ChildExits(0)] + ([EndOfStream] + steps);
  }

  lemma CountFirst(s: State, step: Step, steps: seq<Step>, maxRestarts: Option<int>)
    requires Enabled(s, step) && Possible(Next(s, step, maxRestarts), steps, maxRestarts)
    ensures Possible(s, [step] + steps, maxRestarts)
    ensures RunSteps([step] + steps) == RunSteps(steps) + if OfRun(step) then 1 else 0
  {
    assert ([step] + steps)[1..] == steps;
  }

  // --- does stop reach every child? -------------------------------------------

  /** The window in which `stop` misses a child: the flag was tested but the child, unless some
      other call has asked it, not yet published. */
  predicate Racing(s: State) {
    s.pc.Spawning? || (s.pc.Publishing? && s.pc.child < |s.children| && s.children[s.pc.child] == Running(false))
  }

  /** Some child runs on without having been asked to terminate. */
  predicate HasStray(s: State) {
    exists c :: 0 <= c < |s.children| && s.children[c] == Running(false)
  }

  /** The thread is held up by a child that was not asked to terminate. */
  ghost predicate HeldUpByStray(s: State) {
    HeldUp(s) && Waiting(s) && s.pc.child < |s.children| && s.children[s.pc.child] == Running(false)
  }

  /** A run in which call `i`, having loaded `_proc`, finishes. */
  predicate Finishes(s: State, i: nat, steps: seq<Step>, maxRestarts: Option<int>) {
    Possible(s, steps, maxRestarts) && Terminate(i) in steps
  }

  /** A child running unasked is the one call `i` is about to ask. */
  predicate Reaches(s: State, i: nat) {
    && s.stop && !s.pc.Spawning? && i < |s.calls| && s.calls[i].Holding?
    && forall c :: 0 <= c < |s.children| && s.children[c] == Running(false) ==> s.calls[i].target == Some(c)
  }

  lemma {:induction false} StayStrayless(s: State, steps: seq<Step>, maxRestarts: Option<int>)
    requires s.stop && !s.pc.Spawning? && !HasStray(s) && Possible(s, steps, maxRestarts)
    ensures !HasStray(After(s, steps, maxRestarts))
    decreases |steps|
  {
    if steps != [] {
      StayStrayless(Next(s, steps[0], maxRestarts), steps[1..], maxRestarts);
    }
  }

  lemma {:induction false} FinishedReachesAll(s: State, i: nat, steps: seq<Step>, maxRestarts: Option<int>)
    requires Reaches(s, i) && Finishes(s, i, steps, maxRestarts)
    ensures !HasStray(After(s, steps, maxRestarts))
    decreases |steps|
  {
    var s' := Next(s, steps[0], maxRestarts);
    if steps[0] == Terminate(i) {
      StayStrayless(s', steps[1..], maxRestarts);
    } else {
      FinishedReachesAll(s', i, steps[1..], maxRestarts);
    }
  }

  lemma ReadingCanHang(s: State, maxRestarts: Option<int>) returns (steps: seq<Step>)
    requires s.stop && s.pc.Reading? && s.pc.child < |s.children| && s.children[s.pc.child] == Running(false)
    ensures Possible(s, steps, maxRestarts) && HeldUpByStray(After(s, steps, maxRestarts))
  {
    if s.pipe == Pipe(0, true) {
      steps := [];
    } else {
      var step := if s.pipe.pending > 0 then GetLine else EndOfStream;
      steps := [step];
      assert steps[1..] == [];
      assert After(s, steps, maxRestarts) == Next(s, step, maxRestarts);
    }
  }

  /** In the window the call can finish without having reached the child, and the thread be held
      up by it. */
  lemma RacingCanHang(s: State, i: nat, maxRestarts: Option<int>) returns (steps: seq<Step>)
    requires Inv(s, maxRestarts) && s.stop && Enabled(s, LoadProc(i)) && Racing(s)
    ensures Finishes(Next(s, LoadProc(i), maxRestarts), i, steps, maxRestarts)
    ensures HeldUpByStray(After(Next(s, LoadProc(i), maxRestarts), steps, maxRestarts))
  {
    var s0 := Next(s, LoadProc(i), maxRestarts);
    var s1 := Next(s0, Terminate(i), maxRestarts);
    var s2 := if s.pc.Spawning? then Next(s1, Spawn(true), maxRestarts) else s1;
    var s3 := Next(s2, Publish, maxRestarts);
    var last := ReadingCanHang(s3, maxRestarts);
    StepFirst(s2, Publish, last, maxRestarts);
    steps := [Publish] + last;
    if s.pc.Spawning? {
      StepFirst(s1, Spawn(true), steps, maxRestarts);
      steps := [Spawn(true)] + steps;
    }
    StepFirst(s0, Terminate(i), steps, maxRestarts);
    steps := [Terminate(i)] + steps;
  }

  /** However other steps fall between and after, a call of `stop` that has set the flag and loads
      `_proc` in state `s` leaves no child running unasked once it has finished, exactly when `s`
      is not in the window between the flag test and the publication of the new child. */
  lemma StopReachesAllUnlessRacing(s: State, i: nat, maxRestarts: Option<int>)
    requires Inv(s, maxRestarts) && s.stop && Enabled(s, LoadProc(i))
    ensures var loaded := Next(s, LoadProc(i), maxRestarts);
            (forall steps :: Finishes(loaded, i, steps, maxRestarts) ==> !HasStray(After(loaded, steps, maxRestarts)))
            <==> !Racing(s)
  {
    var loaded := Next(s, LoadProc(i), maxRestarts);
    if Racing(s) {
      var steps := RacingCanHang(s, i, maxRestarts);
      assert HasStray(After(loaded, steps, maxRestarts));
    } else {
      forall steps | Finishes(loaded, i, steps, maxRestarts) ensures !HasStray(After(loaded, steps, maxRestarts)) {
        FinishedReachesAll(loaded, i, steps, maxRestarts);
      }
    }
  }

  /** The same for the loop: after such a call the thread is held up only by a child that was
      asked to terminate, so it goes on once that child exits, exactly when `s` is not in the
      window. Otherwise it can wait without end for a line from a child nobody will ask. */
  lemma StoppedLoopHangsIffRacing(s: State, i: nat, maxRestarts: Option<int>)
    requires Inv(s, maxRestarts) && s.stop && Enabled(s, LoadProc(i))
    ensures var loaded := Next(s, LoadProc(i), maxRestarts);
            (exists steps :: && Finishes(loaded, i, steps, maxRestarts)
                             && HeldUpByStray(After(loaded, steps, maxRestarts)))
            <==> Racing(s)
  {
    var loaded := Next(s, LoadProc(i), maxRestarts);
    if Racing(s) {
      var steps := RacingCanHang(s, i, maxRestarts);
    } else {
      StopReachesAllUnlessRacing(s, i, maxRestarts);
    }
  }

  /** The window is not hypothetical: a stop can load `_proc` right after the loop tested the flag. */
  lemma RaceCanHappen(maxRestarts: Option<int>)
    ensures exists steps :: && Possible(START, steps, maxRestarts)
                            && After(START, steps, maxRestarts).stop
                            && Enabled(After(START, steps, maxRestarts), LoadProc(0))
                            && Racing(After(START, steps, maxRestarts))
  {
    var steps := [TestHead, CallStop];
    assert steps[1..] == [CallStop] && steps[1..][1..] == [];
    assert Possible(START, steps, maxRestarts) && After(START, steps, maxRestarts).pc.Spawning?;
  }
}
