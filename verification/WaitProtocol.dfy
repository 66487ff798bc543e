/** The generation latch a pool parks on. Wakers, publishers of ring releases and waiters (on the
    condition variable, or in the platform's kernel wait) interleave; each locked region and each
    counter update outside the lock is one step. */
module WaitProtocol {
  import opened Counting

  /** A thread as the latch sees it. `wakes` counts the wake and publish calls since it armed and is
      history only. `asleep` is on a condition-variable waiter that has not been roused. */
  datatype Thread =
    | Out
    | Parked(armed: nat, wakes: nat, platform: bool, asleep: bool)
    | Subtracting(woken: bool)
    | Exiting(woken: bool)
    | Recording(woken: bool)

  datatype Gate = Gate(
    current: nat,
    consumed: nat,
    ringPending: bool,
    entered: nat,
    inProgress: nat,
    exited: nat,
    wakeExits: nat,
    timeoutExits: nat)

  /** `notifies` counts wakers that have bumped the generation and not yet notified. */
  datatype World = World(gate: Gate, threads: seq<Thread>, notifies: nat)

  datatype Step =
    | Wake
    | Notify
    | Publish
    | ClearPending
    | ConsumeCurrent
    | Begin(i: nat, platform: bool)
    | Rouse(i: nat)
    | Recheck(i: nat, timedOut: bool)
    | Decide(i: nat, progress: bool)
    | Subtract(i: nat)
    | Exit(i: nat)
    | Record(i: nat)

  // ---------------------------------------------------------------- the locked regions

  function Bumped(g: Gate): Gate { g.(current := g.current + 1) }

  function PublishRegion(g: Gate): Gate {
    var g' := g.(ringPending := true);
    if g.inProgress == 0 then g' else Bumped(g')
  }

  /** The start of a wait: consumes an unseen wake, returns on a pending ring release, else parks. */
  function BeginRegion(g: Gate): (Gate, bool) {
    if g.current != g.consumed then (g.(consumed := g.current), false)
    else if g.ringPending then (g, false)
    else (g.(entered := g.entered + 1, inProgress := g.inProgress + 1), true)
  }

  datatype Verdict = ByWake | ByTimeout | SleepAgain

  /** What a roused condition-variable waiter finds under the lock. */
  function RecheckRegion(g: Gate, armed: nat, timedOut: bool): (Gate, Verdict)
    requires g.inProgress > 0
  {
    var left := g.(inProgress := g.inProgress - 1, exited := g.exited + 1);
    if g.current != armed then (left.(consumed := g.current, wakeExits := g.wakeExits + 1), ByWake)
    else if timedOut then (left.(timeoutExits := g.timeoutExits + 1), ByTimeout)
    else (g, SleepAgain)
  }

  function DecideRegion(g: Gate, armed: nat): (Gate, bool) {
    if g.current != armed then (g.(consumed := g.current), true) else (g, false)
  }

  // ---------------------------------------------------------------- steps

  predicate CanTake(w: World, step: Step) {
    match step
    case Wake => true
    case Notify => w.notifies > 0
    case Publish => true
    case ClearPending => true
    case ConsumeCurrent => true
    case Begin(i, _) => i < |w.threads| && w.threads[i].Out?
    case Rouse(i) => i < |w.threads| && w.threads[i].Parked? && !w.threads[i].platform
    case Recheck(i, _) => i < |w.threads| && w.threads[i].Parked? && !w.threads[i].platform && !w.threads[i].asleep
    case Decide(i, _) => i < |w.threads| && w.threads[i].Parked? && w.threads[i].platform
    case Subtract(i) => i < |w.threads| && w.threads[i].Subtracting?
    case Exit(i) => i < |w.threads| && w.threads[i].Exiting?
    case Record(i) => i < |w.threads| && w.threads[i].Recording?
  }

  /** Every sleeper is roused. */
  function Roused(threads: seq<Thread>): (r: seq<Thread>)
    ensures |r| == |threads|
    ensures forall i | 0 <= i < |r| :: r[i] == if threads[i].Parked? then threads[i].(asleep := false) else threads[i]
  {
    seq(|threads|, i requires 0 <= i < |threads| => if threads[i].Parked? then threads[i].(asleep := false)
        else threads[i])
  }

  /** Every parked thread has seen one more wake or publish call. */
  function Seen(threads: seq<Thread>): (r: seq<Thread>)
    ensures |r| == |threads|
    ensures forall i | 0 <= i < |r| :: r[i] == if threads[i].Parked? then threads[i].(wakes := threads[i].wakes + 1)
            else threads[i]
  {
    seq(|threads|, i requires 0 <= i < |threads| => if threads[i].Parked?
        then threads[i].(wakes := threads[i].wakes + 1) else threads[i])
  }

  /** The counter updates a finishing platform waiter makes outside the lock cannot underflow. */
  predicate Safe(w: World, step: Step)
    requires CanTake(w, step)
  {
    (step.Recheck? || step.Subtract?) ==> w.gate.inProgress > 0
  }

  function Apply(w: World, step: Step): (w': World)
    requires CanTake(w, step) && Safe(w, step)
  {
    var g := w.gate;
    match step
    case Wake => World(Bumped(g), Seen(w.threads), w.notifies + 1)
    case Notify => w.(threads := Roused(w.threads), notifies := w.notifies - 1)
    case Publish =>
      World(PublishRegion(g), if g.inProgress == 0 then Seen(w.threads) else Roused(Seen(w.threads)), w.notifies)
    case ClearPending => w.(gate := g.(ringPending := false))
    case ConsumeCurrent => w.(gate := g.(consumed := g.current))
    case Begin(i, platform) =>
      var (g', park) := BeginRegion(g);
      World(g', if park then w.threads[i := Parked(g.current, 0, platform, !platform)] else w.threads, w.notifies)
    case Rouse(i) => w.(threads := w.threads[i := w.threads[i].(asleep := false)])
    case Recheck(i, timedOut) =>
      var (g', verdict) := RecheckRegion(g, w.threads[i].armed, timedOut);
      World(g', w.threads[i := if verdict.SleepAgain? then w.threads[i].(asleep := true) else Out], w.notifies)
    case Decide(i, progress) =>
      var (g', woken) := DecideRegion(g, w.threads[i].armed);
      World(g', w.threads[i := Subtracting(woken || progress)], w.notifies)
    case Subtract(i) =>
      World(g.(inProgress := g.inProgress - 1), w.threads[i := Exiting(w.threads[i].woken)], w.notifies)
    case Exit(i) =>
      World(g.(exited := g.exited + 1), w.threads[i := Recording(w.threads[i].woken)], w.notifies)
    case Record(i) =>
      World(if w.threads[i].woken then g.(wakeExits := g.wakeExits + 1) else g.(timeoutExits := g.timeoutExits + 1),
            w.threads[i := Out], w.notifies)
  }

  predicate Next(w: World, step: Step, w': World) {
    CanTake(w, step) && Safe(w, step) && w' == Apply(w, step)
  }

  function Start(n: nat): World {
    World(Gate(0, 0, false, 0, 0, 0, 0, 0), seq(n, _ => Out), 0)
  }

  ghost predicate Run(w: World, steps: seq<Step>, w': World)
    decreases |steps|
  {
    if steps == [] then w == w'
    else CanTake(w, steps[0]) && Safe(w, steps[0]) && Run(Apply(w, steps[0]), steps[1..], w')
  }

  ghost predicate Reachable(w: World) {
    exists n: nat, steps :: Run(Start(n), steps, w)
  }

  // ---------------------------------------------------------------- the invariant

  function IsParked(): Thread -> bool { (t: Thread) => t.Parked? }
  function IsSubtracting(): Thread -> bool { (t: Thread) => t.Subtracting? }
  function IsExiting(): Thread -> bool { (t: Thread) => t.Exiting? }
  function IsRecording(): Thread -> bool { (t: Thread) => t.Recording? }

  /** A parked thread armed at a generation that was fully consumed; every call since moved the
      generation on; and it can only be asleep unnotified while nothing happened. */
  predicate ThreadOk(g: Gate, notifies: nat, t: Thread) {
    t.Parked? ==>
      && t.armed + t.wakes == g.current
      && t.armed <= g.consumed
      && (t.asleep ==> !t.platform)
      && (g.ringPending ==> t.wakes > 0 && !t.asleep)
      && (t.asleep && t.wakes > 0 ==> notifies > 0)
  }

  ghost predicate CountersOk(g: Gate, threads: seq<Thread>) {
    && g.inProgress == Count(threads, IsParked()) + Count(threads, IsSubtracting())
    && g.entered == g.exited + g.inProgress + Count(threads, IsExiting())
    && g.exited == g.wakeExits + g.timeoutExits + Count(threads, IsRecording())
  }

  ghost predicate ThreadsOk(g: Gate, notifies: nat, threads: seq<Thread>) {
    && g.consumed <= g.current
    && (forall i | 0 <= i < |threads| :: ThreadOk(g, notifies, threads[i]))
  }

  ghost predicate Inv(w: World) {
    ThreadsOk(w.gate, w.notifies, w.threads) && CountersOk(w.gate, w.threads)
  }

  lemma CountsOf(threads: seq<Thread>, i: nat, t: Thread)
    requires i < |threads|
    ensures Count(threads[i := t], IsParked()) == Count(threads, IsParked()) - One(threads[i].Parked?) + One(t.Parked?)
    ensures Count(threads[i := t], IsSubtracting())
            == Count(threads, IsSubtracting()) - One(threads[i].Subtracting?) + One(t.Subtracting?)
    ensures Count(threads[i := t], IsExiting())
            == Count(threads, IsExiting()) - One(threads[i].Exiting?) + One(t.Exiting?)
    ensures Count(threads[i := t], IsRecording())
            == Count(threads, IsRecording()) - One(threads[i].Recording?) + One(t.Recording?)
  {
    CountUpdate(threads, i, t, IsParked());
    CountUpdate(threads, i, t, IsSubtracting());
    CountUpdate(threads, i, t, IsExiting());
    CountUpdate(threads, i, t, IsRecording());
  }

  /** Threads that change place nowhere count the same. */
  lemma {:induction false} CountsSame(threads: seq<Thread>, threads': seq<Thread>, p: Thread -> bool)
    requires |threads'| == |threads| && forall i | 0 <= i < |threads| :: p(threads'[i]) == p(threads[i])
    ensures Count(threads', p) == Count(threads, p)
  {
    if threads != [] {
      forall i | 0 <= i < |threads[1..]| ensures p(threads'[1..][i]) == p(threads[1..][i]) {
        assert threads'[1..][i] == threads'[i + 1] && threads[1..][i] == threads[i + 1];
      }
      CountsSame(threads[1..], threads'[1..], p);
    }
  }

  lemma AllCountsSame(threads: seq<Thread>, threads': seq<Thread>)
    requires threads' == Seen(threads) || threads' == Roused(threads) || threads' == Roused(Seen(threads))
    ensures Count(threads', IsParked()) == Count(threads, IsParked())
    ensures Count(threads', IsSubtracting()) == Count(threads, IsSubtracting())
    ensures Count(threads', IsExiting()) == Count(threads, IsExiting())
    ensures Count(threads', IsRecording()) == Count(threads, IsRecording())
  {
    CountsSame(threads, threads', IsParked());
    CountsSame(threads, threads', IsSubtracting());
    CountsSame(threads, threads', IsExiting());
    CountsSame(threads, threads', IsRecording());
  }

  lemma StepIsSafe(w: World, step: Step)
    requires Inv(w) && CanTake(w, step)
    ensures Safe(w, step)
  {
    if step.Recheck? { CountMember(w.threads, step.i, IsParked()); }
    if step.Subtract? { CountMember(w.threads, step.i, IsSubtracting()); }
  }

  lemma CountersKeep(w: World, step: Step)
    requires CountersOk(w.gate, w.threads) && CanTake(w, step) && Safe(w, step)
    ensures CountersOk(Apply(w, step).gate, Apply(w, step).threads)
  {
    hide Count, Seen, Roused;
    var threads' := Apply(w, step).threads;
    match step
    case Wake => AllCountsSame(w.threads, threads');
    case Notify => AllCountsSame(w.threads, threads');
    case Publish => AllCountsSame(w.threads, threads');
    case ClearPending =>
    case ConsumeCurrent =>
    case Begin(i, _) => WaiterCounts(w, step);
    case Rouse(i) => WaiterCounts(w, step);
    case Recheck(i, _) => WaiterCounts(w, step);
    case Decide(i, _) => FinisherCounts(w, step);
    case Subtract(i) => FinisherCounts(w, step);
    case Exit(i) => FinisherCounts(w, step);
    case Record(i) => FinisherCounts(w, step);
  }

  lemma WaiterCounts(w: World, step: Step)
    requires CountersOk(w.gate, w.threads) && CanTake(w, step) && Safe(w, step)
    requires step.Begin? || step.Rouse? || step.Recheck?
    ensures CountersOk(Apply(w, step).gate, Apply(w, step).threads)
  {
    hide Count;
    CountsOf(w.threads, step.i, Apply(w, step).threads[step.i]);
  }

  lemma FinisherCounts(w: World, step: Step)
    requires CountersOk(w.gate, w.threads) && CanTake(w, step) && Safe(w, step)
    requires step.Decide? || step.Subtract? || step.Exit? || step.Record?
    ensures CountersOk(Apply(w, step).gate, Apply(w, step).threads)
  {
    hide Count;
    CountsOf(w.threads, step.i, Apply(w, step).threads[step.i]);
  }

  lemma ThreadsKeep(w: World, step: Step)
    requires Inv(w) && CanTake(w, step) && Safe(w, step)
    ensures ThreadsOk(Apply(w, step).gate, Apply(w, step).notifies, Apply(w, step).threads)
  {
    hide Count;
    var w' := Apply(w, step);
    forall i | 0 <= i < |w'.threads| ensures ThreadOk(w'.gate, w'.notifies, w'.threads[i]) {
      assert ThreadOk(w.gate, w.notifies, w.threads[i]);
      if step.Publish? && w.threads[i].Parked? { CountMember(w.threads, i, IsParked()); }
    }
  }

  lemma {:induction false} RunKeeps(w: World, steps: seq<Step>, w': World)
    requires Inv(w) && Run(w, steps, w')
    ensures Inv(w')
    decreases |steps|
  {
    hide Apply, Safe;
    if steps != [] {
      CountersKeep(w, steps[0]);
      ThreadsKeep(w, steps[0]);
      RunKeeps(Apply(w, steps[0]), steps[1..], w');
    }
  }

  lemma ReachableInv(w: World)
    requires Reachable(w)
    ensures Inv(w)
  {
    var n: nat, steps :| Run(Start(n), steps, w);
    CountNone(Start(n).threads, IsParked());
    CountNone(Start(n).threads, IsSubtracting());
    CountNone(Start(n).threads, IsExiting());
    CountNone(Start(n).threads, IsRecording());
    RunKeeps(Start(n), steps, w);
  }

  lemma {:induction false} RunSnoc(w: World, steps: seq<Step>, w': World, step: Step)
    requires Run(w, steps, w') && CanTake(w', step) && Safe(w', step)
    ensures Run(w, steps + [step], Apply(w', step))
    decreases |steps|
  {
    hide Apply, CanTake, Safe;
    if steps == [] {
      assert (steps + [step])[1..] == [];
    } else {
      assert (steps + [step])[1..] == steps[1..] + [step];
      RunSnoc(Apply(w, steps[0]), steps[1..], w', step);
    }
  }

  lemma ReachableSnoc(w: World, step: Step)
    requires Reachable(w) && CanTake(w, step) && Safe(w, step)
    ensures Reachable(Apply(w, step))
  {
    hide Apply, CanTake, Safe, Start, Run;
    var n: nat, steps :| Run(Start(n), steps, w);
    RunSnoc(Start(n), steps, w, step);
    assert Run(Start(n), steps + [step], Apply(w, step));
  }

  lemma ReachableStep(w: World, step: Step)
    requires Reachable(w) && CanTake(w, step)
    ensures Safe(w, step) && Reachable(Apply(w, step))
  {
    hide Apply, CanTake, Safe, Inv, Reachable;
    ReachableInv(w);
    StepIsSafe(w, step);
    ReachableSnoc(w, step);
  }

  // ---------------------------------------------------------------- laws

  /** A pending ring release never leaves a waiter asleep: no condition-variable waiter is asleep
      then, and every parked thread, of either kind, finds that its generation has passed. */
  lemma PendingReleaseWakesAll(w: World, i: nat)
    requires Reachable(w) && w.gate.ringPending && i < |w.threads| && w.threads[i].Parked?
    ensures !w.threads[i].asleep && w.threads[i].armed < w.gate.current
  {
    ReachableInv(w);
    assert ThreadOk(w.gate, w.notifies, w.threads[i]);
  }

  /** Read the other way: a parked thread whose armed generation is still current has missed neither
      a ring release nor a wake, and nothing is left unconsumed. */
  lemma StillArmedMeansNothingHappened(w: World, i: nat)
    requires Reachable(w) && i < |w.threads| && w.threads[i].Parked?
    ensures w.threads[i].armed <= w.gate.consumed <= w.gate.current
    ensures w.threads[i].armed == w.gate.current <==> w.threads[i].wakes == 0
    ensures w.threads[i].armed == w.gate.current ==> !w.gate.ringPending && w.gate.consumed == w.gate.current
  {
    ReachableInv(w);
    assert ThreadOk(w.gate, w.notifies, w.threads[i]);
  }

  /** No wake is lost on a sleeper: if anything was signalled since it armed, a notification is on
      its way, and that notification leaves nobody asleep. */
  lemma SleeperIsNotified(w: World, i: nat)
    requires Reachable(w) && i < |w.threads| && w.threads[i].Parked? && w.threads[i].asleep && w.threads[i].wakes > 0
    ensures CanTake(w, Notify)
    ensures forall j | 0 <= j < |w.threads| && Apply(w, Notify).threads[j].Parked? ::
            !Apply(w, Notify).threads[j].asleep
  {
    ReachableInv(w);
    assert ThreadOk(w.gate, w.notifies, w.threads[i]);
  }

  /** How a condition-variable waiter leaves: by wake exactly if a wake or publish call came since it
      armed, by timeout exactly if none did and its time is up; leaving by wake consumes them all. */
  lemma LeavesByWakeIffSignalled(w: World, i: nat, timedOut: bool)
    requires Reachable(w) && CanTake(w, Recheck(i, timedOut))
    ensures Safe(w, Recheck(i, timedOut))
    ensures var g, w' := w.gate, Apply(w, Recheck(i, timedOut));
            && (w'.gate.wakeExits == g.wakeExits + 1 <==> w.threads[i].wakes > 0)
            && (w'.gate.timeoutExits == g.timeoutExits + 1 <==> w.threads[i].wakes == 0 && timedOut)
            && (w'.threads[i].Out? <==> w.threads[i].wakes > 0 || timedOut)
            && (w.threads[i].wakes > 0 ==> w'.gate.consumed == g.current)
            && (w.threads[i].wakes == 0 && !timedOut ==>
                  w' == w.(threads := w.threads[i := w.threads[i].(asleep := true)]))
  {
    ReachableInv(w);
    StepIsSafe(w, Recheck(i, timedOut));
    assert ThreadOk(w.gate, w.notifies, w.threads[i]);
  }

  /** The same for a platform waiter, whose kernel wait may also end with completions in hand. */
  lemma DecidesByWakeIffSignalled(w: World, i: nat, progress: bool)
    requires Reachable(w) && CanTake(w, Decide(i, progress))
    ensures var w' := Apply(w, Decide(i, progress));
            && w'.threads[i] == Subtracting(w.threads[i].wakes > 0 || progress)
            && w'.gate.consumed == if w.threads[i].wakes > 0 then w.gate.current else w.gate.consumed
  {
    ReachableInv(w);
    assert ThreadOk(w.gate, w.notifies, w.threads[i]);
  }

  /** The generations only move forward, and `consumed` never passes `current`. */
  lemma {:induction false} GenerationsAdvance(w: World, steps: seq<Step>, w': World)
    requires Inv(w) && Run(w, steps, w')
    ensures w.gate.current <= w'.gate.current && w.gate.consumed <= w'.gate.consumed <= w'.gate.current
    decreases |steps|
  {
    if steps != [] {
      CountersKeep(w, steps[0]);
      ThreadsKeep(w, steps[0]);
      GenerationsAdvance(Apply(w, steps[0]), steps[1..], w');
    }
  }

  /** A wake before the wait is not lost either: as long as nothing consumed it, a wait that starts
      later, whatever happened in between, returns at once and consumes it. */
  lemma EarlierWakeIsSeen(w: World, steps: seq<Step>, w': World, i: nat, platform: bool)
    requires Reachable(w) && Run(Apply(w, Wake), steps, w') && w'.gate.consumed <= w.gate.current
    requires CanTake(w', Begin(i, platform))
    ensures var w'' := Apply(w', Begin(i, platform));
            w''.threads[i].Out? && w''.gate.entered == w'.gate.entered && w''.gate.consumed == w'.gate.current
  {
    ReachableStep(w, Wake);
    ReachableInv(Apply(w, Wake));
    GenerationsAdvance(Apply(w, Wake), steps, w');
  }

  /** Nor is a ring release: until it is cleared, whatever happens, a wait that starts returns at once. */
  lemma PendingReleaseIsSeen(w: World, steps: seq<Step>, w': World, i: nat, platform: bool)
    requires Reachable(w) && Run(Apply(w, Publish), steps, w') && ClearPending !in steps
    requires CanTake(w', Begin(i, platform))
    ensures var w'' := Apply(w', Begin(i, platform));
            w'.gate.ringPending && w''.threads[i].Out? && w''.gate.entered == w'.gate.entered
  {
    PendingStays(Apply(w, Publish), steps, w');
  }

  lemma {:induction false} PendingStays(w: World, steps: seq<Step>, w': World)
    requires w.gate.ringPending && Run(w, steps, w') && ClearPending !in steps
    ensures w'.gate.ringPending
    decreases |steps|
  {
    if steps != [] { PendingStays(Apply(w, steps[0]), steps[1..], w'); }
  }

  /** A wait parks if and only if everything signalled was consumed and no release is pending. So once
      the wakes so far are consumed and the release is cleared, in either order, the next wait of any
      thread that is out parks, and it parks at the present generation. */
  lemma ParksIffNothingToSee(w: World, i: nat, platform: bool)
    requires Reachable(w) && CanTake(w, Begin(i, platform))
    ensures Apply(w, Begin(i, platform)).threads[i].Parked?
            <==> w.gate.consumed == w.gate.current && !w.gate.ringPending
    ensures var quiet := Apply(Apply(w, ConsumeCurrent), ClearPending);
            && quiet == Apply(Apply(w, ClearPending), ConsumeCurrent) && CanTake(quiet, Begin(i, platform))
            && var t := Apply(quiet, Begin(i, platform)).threads[i];
               t == Parked(w.gate.current, 0, platform, !platform)
    ensures !w.gate.ringPending ==>
              && CanTake(Apply(w, ConsumeCurrent), Begin(i, platform))
              && Apply(Apply(w, ConsumeCurrent), Begin(i, platform)).threads[i].Parked?
    ensures w.gate.consumed == w.gate.current ==>
              && CanTake(Apply(w, ClearPending), Begin(i, platform))
              && Apply(Apply(w, ClearPending), Begin(i, platform)).threads[i].Parked?
  {
  }

  /** Park accounting: entered parks are those exited and those still under way; with nobody between
      a finished platform wait and its last counter, also the wake exits and timeout exits and the
      parked; and the count publishers test never falls below the number parked. */
  lemma ParksBalance(w: World)
    requires Reachable(w)
    ensures w.gate.inProgress >= Count(w.threads, IsParked())
    ensures w.gate.entered >= w.gate.exited + Count(w.threads, IsParked())
    ensures Count(w.threads, IsSubtracting()) == Count(w.threads, IsExiting()) == Count(w.threads, IsRecording())
            == 0 ==>
              && w.gate.inProgress == Count(w.threads, IsParked())
              && w.gate.entered == w.gate.exited + Count(w.threads, IsParked())
              && w.gate.exited == w.gate.wakeExits + w.gate.timeoutExits
  {
    ReachableInv(w);
  }

  // ---------------------------------------------------------------- the latch itself

  /** The latch's fields and locked regions. The world around it is ghost: `me` is the calling
      thread's place in it. */
  class WaitState {
    var current: nat
    var consumed: nat
    var ringPending: bool
    var ringPendingHint: bool
    var parksEntered: nat
    var parksInProgress: nat
    var parksExited: nat
    var wakeExits: nat
    var timeoutExits: nat
    ghost var world: World

    ghost predicate Valid()
      reads this
    {
      && Reachable(world) && ringPendingHint == ringPending
      && world.gate == Gate(current, consumed, ringPending, parksEntered, parksInProgress, parksExited,
                            wakeExits, timeoutExits)
    }

    constructor (ghost threads: nat)
      ensures Valid() && world == Start(threads)
    {
      current, consumed, ringPending, ringPendingHint := 0, 0, false, false;
      parksEntered, parksInProgress, parksExited, wakeExits, timeoutExits := 0, 0, 0, 0, 0;
      world := Start(threads);
      new;
      assert Run(Start(threads), [], world);
    }

    ghost method Take(step: Step)
      requires Reachable(world) && CanTake(world, step)
      modifies this`world
      ensures Safe(old(world), step) && world == Apply(old(world), step) && Reachable(world)
    {
      ReachableStep(world, step);
      world := Apply(world, step);
    }

    method BumpForWake()
      requires Valid()
      modifies this
      ensures Valid() && Next(old(world), Wake, world)
      ensures current == old(current) + 1 && consumed == old(consumed) && ringPending == old(ringPending)
    {
      Take(Wake);
      current := current + 1;
    }

    method PublishRingPendingAndWakeIfParked()
      requires Valid()
      modifies this
      ensures Valid() && Next(old(world), Publish, world)
      ensures consumed == old(consumed)
      ensures current == if old(parksInProgress) == 0 then old(current) else old(current) + 1
      ensures ringPending && forall i | 0 <= i < |world.threads| && world.threads[i].Parked? :: !world.threads[i].asleep
    {
      Take(Publish);
      ringPending := true;
      ringPendingHint := true;
      forall i | 0 <= i < |world.threads| && world.threads[i].Parked? ensures !world.threads[i].asleep {
        PendingReleaseWakesAll(world, i);
      }
      if parksInProgress == 0 { return; }
      current := current + 1;
    }

    method ClearRingPending()
      requires Valid()
      modifies this
      ensures Valid() && Next(old(world), ClearPending, world)
      ensures !ringPending && current == old(current) && consumed == old(consumed)
      ensures world == old(world).(gate := old(world).gate.(ringPending := false))
    {
      Take(ClearPending);
      ringPending := false;
      ringPendingHint := false;
    }

    method Consume()
      requires Valid()
      modifies this
      ensures Valid() && Next(old(world), ConsumeCurrent, world)
      ensures consumed == current == old(current) && ringPending == old(ringPending)
      ensures world == old(world).(gate := old(world).gate.(consumed := current))
    {
      Take(ConsumeCurrent);
      consumed := current;
    }

    /** The locked start of `wait` and of `begin_platform_wait`: parks only with nothing to see. */
    method BeginWait(ghost me: nat, platform: bool) returns (armed: nat, parked: bool)
      requires Valid() && CanTake(world, Begin(me, platform))
      modifies this
      ensures Valid() && Next(old(world), Begin(me, platform), world)
      ensures parked <==> old(current) == old(consumed) && !old(ringPending)
      ensures consumed == current == old(current) && ringPending == old(ringPending)
      ensures parksEntered == old(parksEntered) + One(parked) && parksInProgress == old(parksInProgress) + One(parked)
      ensures parked ==> armed == current == consumed && world.threads[me] == Parked(armed, 0, platform, !platform)
    {
      Take(Begin(me, platform));
      armed, parked := current, false;
      if current != consumed {
        consumed := current;
        return;
      }
      parksInProgress := parksInProgress + 1;
      if ringPending {
        parksInProgress := parksInProgress - 1;
        return;
      }
      parksEntered := parksEntered + 1;
      parked := true;
    }

    /** A waiter back from the condition variable, with the lock: leaves, or waits again. */
    method RecheckWait(ghost me: nat, armed: nat, timedOut: bool) returns (left: bool)
      requires Valid() && CanTake(world, Recheck(me, timedOut)) && world.threads[me].armed == armed
      modifies this
      ensures Valid() && Next(old(world), Recheck(me, timedOut), world)
      ensures left <==> old(world).threads[me].wakes > 0 || timedOut
      ensures wakeExits == old(wakeExits) + One(old(world).threads[me].wakes > 0)
      ensures timeoutExits == old(timeoutExits) + One(old(world).threads[me].wakes == 0 && timedOut)
      ensures parksExited == old(parksExited) + One(left) && parksInProgress == old(parksInProgress) - One(left)
    {
      LeavesByWakeIffSignalled(world, me, timedOut);
      Take(Recheck(me, timedOut));
      if current == armed && !timedOut { return false; }
      if current != armed { consumed := current; }
      parksInProgress := parksInProgress - 1;
      parksExited := parksExited + 1;
      if current == armed {
        timeoutExits := timeoutExits + 1;
      } else {
        wakeExits := wakeExits + 1;
      }
      left := true;
    }

    method PlatformWoken(ghost me: nat, armed: nat) returns (woken: bool)
      requires Valid() && me < |world.threads| && world.threads[me].Parked? && world.threads[me].armed == armed
      ensures woken <==> world.threads[me].wakes > 0
    {
      StillArmedMeansNothingHappened(world, me);
      woken := current != armed;
    }

    /** The locked decision of `finish_platform_wait`. */
    method DecidePlatformWait(ghost me: nat, armed: nat, progress: bool) returns (woken: bool)
      requires Valid() && CanTake(world, Decide(me, progress)) && world.threads[me].armed == armed
      modifies this
      ensures Valid() && Next(old(world), Decide(me, progress), world)
      ensures woken <==> old(world).threads[me].wakes > 0
      ensures consumed == if woken then current else old(consumed)
    {
      DecidesByWakeIffSignalled(world, me, progress);
      StillArmedMeansNothingHappened(world, me);
      Take(Decide(me, progress));
      woken := current != armed;
      if woken { consumed := current; }
    }

    /** The counter updates after it, each atomic on its own. */
    method SubtractPark(ghost me: nat)
      requires Valid() && CanTake(world, Subtract(me))
      modifies this
      ensures Valid() && Next(old(world), Subtract(me), world) && parksInProgress == old(parksInProgress) - 1
    {
      Take(Subtract(me));
      assert parksInProgress > 0;
      parksInProgress := parksInProgress - 1;
    }

    method ExitPark(ghost me: nat)
      requires Valid() && CanTake(world, Exit(me))
      modifies this
      ensures Valid() && Next(old(world), Exit(me), world) && parksExited == old(parksExited) + 1
    {
      Take(Exit(me));
      parksExited := parksExited + 1;
    }

    method RecordExit(ghost me: nat, byWake: bool)
      requires Valid() && CanTake(world, Record(me)) && world.threads[me].woken == byWake
      modifies this
      ensures Valid() && Next(old(world), Record(me), world)
      ensures wakeExits == old(wakeExits) + One(byWake) && timeoutExits == old(timeoutExits) + One(!byWake)
    {
      Take(Record(me));
      if byWake {
        wakeExits := wakeExits + 1;
      } else {
        timeoutExits := timeoutExits + 1;
      }
    }
  }
}
