/** Laws that compare the two ends of a run, and how a run gets to its end. */
module Runs {
  import opened Types
  import opened Ops
  import opened Core
  import opened Invariant
  import opened Steps
  import opened Theorems

  // ---------------------------------------------------------------- file identity

  /** The id named a generation that its slot has already reached. */
  predicate Minted(files: seq<FileSlot>, id: FileId) {
    id.slot < |files| && id.generation <= files[id.slot].generation
  }

  ghost predicate FilesAdvance(files: seq<FileSlot>, files': seq<FileSlot>) {
    && |files'| == |files|
    && (forall f: nat | f < |files| :: files[f].generation <= files'[f].generation)
    && (forall id: FileId | Minted(files, id) && !IsLive(files, id) :: !IsLive(files', id))
    && (forall id: FileId | Gone(files, id) :: Gone(files', id))
  }

  lemma AdvanceSame(files: seq<FileSlot>, f: nat, x: FileSlot)
    requires f < |files| && x.generation == files[f].generation
    requires x.state.Open? ==> files[f].state.Open?
    requires files[f].state.Closed? ==> x.state.Closed?
    ensures FilesAdvance(files, files[f := x])
  {
  }

  lemma AdvanceNone(files: seq<FileSlot>)
    ensures FilesAdvance(files, files)
  {
  }

  lemma AdvanceOpen(files: seq<FileSlot>, f: nat)
    requires f < |files| && Reusable(files[f])
    ensures FilesAdvance(files, OpenFile(files, f))
  {
  }

  lemma FinishAdvances(c: Config, s: System, slot: nat, outcome: Outcome)
    requires c.granule > 0 && Occupied(s.sh.slots, slot)
    requires EndingOf(EntryAt(s.sh.slots, slot), outcome).Freed? ==>
             CanComplete(s.sh.files, EntryAt(s.sh.slots, slot).fd)
    ensures FilesAdvance(s.sh.files, Finish(c, s, slot, outcome).sh.files)
  {
    var e := EntryAt(s.sh.slots, slot);
    if EndingOf(e, outcome).Freed? {
      AdvanceSame(s.sh.files, e.fd.slot, OnComplete(s.sh.files, e.fd)[e.fd.slot]);
    }
  }

  lemma GiveBackAdvances(c: Config, s: System, slot: nat)
    requires IsHeld(s.sh.slots, slot) && CanComplete(s.sh.files, EntryAt(s.sh.slots, slot).fd)
    ensures FilesAdvance(s.sh.files, GiveBack(c, s, slot).sh.files)
  {
    var e := EntryAt(s.sh.slots, slot);
    AdvanceSame(s.sh.files, e.fd.slot, OnComplete(s.sh.files, e.fd)[e.fd.slot]);
  }

  lemma StepAdvances(c: Config, s: System, step: Step)
    requires c.Valid() && Offered(c, s, step) && AssertsHold(c, s, step)
    ensures FilesAdvance(s.sh.files, Apply(c, s, step).sh.files)
  {
    hide Finish, GiveBack, FilesAdvance;
    var files := s.sh.files;
    AdvanceNone(files);
    match step
    case ReserveFile =>
      var f := FirstReusable(files, 0);
      if f < |files| { AdvanceOpen(files, f); }
    case AbortFile(id) => AdvanceSame(files, id.slot, SetState(files, id, Free)[id.slot]);
    case Close(id) => AdvanceSame(files, id.slot, SetState(files, id, Closing)[id.slot]);
    case FinishRetire(id) => AdvanceSame(files, id.slot, SetState(files, id, Closed)[id.slot]);
    case Submit(req, position) => AdvanceSame(files, req.fd.slot, OnSubmit(files, req.fd)[req.fd.slot]);
    case Reap =>
      var slot := s.cq[0].token.slot;
      var p := RingProgress(EntryAt(s.sh.slots, slot), s.cq[0].raw, c.retryBound).1;
      if p.Finished? { FinishAdvances(c, s.(cq := s.cq[1..]), slot, p.outcome); }
    case Publish(token, outcome, _) => FinishAdvances(c, s.(executing := s.executing - {token}), token.slot, outcome);
    case DropLease(token) => if Contains(s.sh.slots, token) { GiveBackAdvances(c, s, token.slot); }
    case Abandon(slot) => GiveBackAdvances(c, s, slot);
    case _ =>
  }

  /** File identity over whole runs: an id that is not live never becomes live again, one that
      reads as closed does so for ever, and generations only grow. */
  lemma {:induction false} FileIdentity(c: Config, s: System, steps: seq<Step>, t: System)
    requires Run(c, s, steps, t)
    ensures FilesAdvance(s.sh.files, t.sh.files)
    decreases |steps|
  {
    hide Apply, AssertsHold, Exhausted;
    if steps != [] {
      StepAdvances(c, s, steps[0]);
      FileIdentity(c, Apply(c, s, steps[0]), steps[1..], t);
    }
  }

  /** Two opens never mint the same id: between them the slot's generation has moved on. */
  lemma OpensAreDistinct(c: Config, s: System, steps: seq<Step>, t: System)
    requires c.Valid() && Offered(c, s, ReserveFile) && FirstReusable(s.sh.files, 0) < |s.sh.files|
    requires Run(c, Apply(c, s, ReserveFile), steps, t) && FirstReusable(t.sh.files, 0) < |t.sh.files|
    ensures var f, g := FirstReusable(s.sh.files, 0), FirstReusable(t.sh.files, 0);
            IdAt(OpenFile(s.sh.files, f), f) != IdAt(OpenFile(t.sh.files, g), g)
  {
    FileIdentity(c, Apply(c, s, ReserveFile), steps, t);
  }

  lemma ArenaSize(c: Config, s: System)
    requires Reachable(c, s)
    ensures |s.arena| == c.writeSlots
  {
    ReachableInv(c, s);
  }

  // ---------------------------------------------------------------- progress

  /** What the queued and active operations can still absorb. */
  function Work(slots: seq<SlabSlot>, bound: nat): nat {
    if slots == [] then 0 else SlotWork(slots[0], bound) + Work(slots[1..], bound)
  }

  function SlotWork(x: SlabSlot, bound: nat): nat {
    if x.payload.Some? && !x.payload.value.state.Held() then Fuel(x.payload.value, bound) else 0
  }

  lemma {:induction false} WorkUpdate(slots: seq<SlabSlot>, i: nat, x: SlabSlot, bound: nat)
    requires i < |slots|
    ensures Work(slots[i := x], bound) + SlotWork(slots[i], bound) == Work(slots, bound) + SlotWork(x, bound)
  {
    if i == 0 {
      assert slots[i := x][1..] == slots[1..];
    } else {
      assert slots[i := x][1..] == slots[1..][i - 1 := x];
      WorkUpdate(slots[1..], i - 1, x, bound);
    }
  }

  lemma PrepareWork(c: Config, s: System)
    requires c.Valid() && Offered(c, s, Prepare) && AssertsHold(c, s, Prepare)
    ensures Work(Apply(c, s, Prepare).sh.slots, c.retryBound) == Work(s.sh.slots, c.retryBound)
  {
    WorkUpdate(s.sh.slots, s.sh.ready[0], Activate(c, s.sh).slots[s.sh.ready[0]], c.retryBound);
  }

  lemma ReapSlot(c: Config, s: System)
    requires c.Valid() && Offered(c, s, Reap) && AssertsHold(c, s, Reap)
    requires ActiveToken(s.sh.slots, s.cq[0].token)
    ensures var slots, slots', slot := s.sh.slots, Apply(c, s, Reap).sh.slots, s.cq[0].token.slot;
            && |slots'| == |slots| && slots' == slots[slot := slots'[slot]]
            && SlotWork(slots'[slot], c.retryBound) < SlotWork(slots[slot], c.retryBound)
  {
    hide Finish;
    var slot := s.cq[0].token.slot;
    var e := EntryAt(s.sh.slots, slot);
    RingProgressFrame(e, s.cq[0].raw, c.retryBound);
    var p := RingProgress(e, s.cq[0].raw, c.retryBound).1;
    if p.Finished? { FinishSlot(c, s.(cq := s.cq[1..]), slot, p.outcome); }
  }

  /** An ended attempt leaves its slot empty or held. */
  lemma FinishSlot(c: Config, s: System, slot: nat, outcome: Outcome)
    requires c.granule > 0 && Occupied(s.sh.slots, slot)
    requires EndingOf(EntryAt(s.sh.slots, slot), outcome).Freed? ==>
               CanComplete(s.sh.files, EntryAt(s.sh.slots, slot).fd)
    ensures var slots, slots' := s.sh.slots, Finish(c, s, slot, outcome).sh.slots;
            && |slots'| == |slots| && slots' == slots[slot := slots'[slot]]
            && (slots'[slot].payload.Some? ==> slots'[slot].payload.value.state.Held())
  {
  }

  lemma ReapWork(c: Config, s: System)
    requires c.Valid() && Offered(c, s, Reap) && AssertsHold(c, s, Reap)
    requires ActiveToken(s.sh.slots, s.cq[0].token)
    ensures Work(Apply(c, s, Reap).sh.slots, c.retryBound) < Work(s.sh.slots, c.retryBound)
  {
    hide Apply, Work, SlotWork;
    ReapSlot(c, s);
    WorkUpdate(s.sh.slots, s.cq[0].token.slot, Apply(c, s, Reap).sh.slots[s.cq[0].token.slot], c.retryBound);
  }

  /** Each reaped completion entry, terminal or retryable, strictly reduces the remaining work; a
      fill or a kernel answer leaves it as it is. */
  lemma ReapMakesProgress(c: Config, s: System, step: Step)
    requires Reachable(c, s) && Offered(c, s, step) && AssertsHold(c, s, step) && !Exhausted(c, s, step)
    requires step.Reap? || step.Prepare? || step.Post?
    ensures var before, after := Work(s.sh.slots, c.retryBound), Work(Apply(c, s, step).sh.slots, c.retryBound);
            if step.Reap? then after < before else after == before
  {
    hide Inv, Work;
    if step.Prepare? {
      PrepareWork(c, s);
    } else if step.Reap? {
      ReachableInv(c, s);
      CqeFacts(c, s);
      ReapWork(c, s);
    }
  }

  // ---------------------------------------------------------------- the retire scratch

  lemma StepKeepsDue(c: Config, s: System, step: Step, id: FileId)
    requires c.Valid() && Offered(c, s, step) && AssertsHold(c, s, step) && id in s.due && step != RetireBackend(id)
    ensures id in Apply(c, s, step).due
  {
    hide Finish, GiveBack;
    match step
    case Reap =>
      var slot := s.cq[0].token.slot;
      var p := RingProgress(EntryAt(s.sh.slots, slot), s.cq[0].raw, c.retryBound).1;
      if p.Finished? { FinishKeepsDue(c, s.(cq := s.cq[1..]), slot, p.outcome); }
    case Publish(token, outcome, _) => FinishKeepsDue(c, s.(executing := s.executing - {token}), token.slot, outcome);
    case DropLease(token) => if Contains(s.sh.slots, token) { GiveBackKeepsDue(c, s, token.slot); }
    case Abandon(slot) => GiveBackKeepsDue(c, s, slot);
    case _ =>
  }

  lemma FinishKeepsDue(c: Config, s: System, slot: nat, outcome: Outcome)
    requires c.granule > 0 && Occupied(s.sh.slots, slot)
    requires EndingOf(EntryAt(s.sh.slots, slot), outcome).Freed? ==>
               CanComplete(s.sh.files, EntryAt(s.sh.slots, slot).fd)
    ensures s.due <= Finish(c, s, slot, outcome).due && |Finish(c, s, slot, outcome).sh.files| == |s.sh.files|
  {
  }

  lemma GiveBackKeepsDue(c: Config, s: System, slot: nat)
    requires IsHeld(s.sh.slots, slot) && CanComplete(s.sh.files, EntryAt(s.sh.slots, slot).fd)
    ensures GiveBack(c, s, slot).due == s.due
  {
  }

  /** Whatever happens in between, a file stays due until someone starts to retire it. */
  lemma {:induction false} DueStays(c: Config, s: System, steps: seq<Step>, t: System, id: FileId)
    requires Run(c, s, steps, t) && id in s.due && RetireBackend(id) !in steps
    ensures id in t.due
    decreases |steps|
  {
    hide Apply, AssertsHold, Exhausted, Offered;
    if steps != [] {
      StepKeepsDue(c, s, steps[0], id);
      DueStays(c, Apply(c, s, steps[0]), steps[1..], t, id);
    }
  }

  /** A reaper's scratch list of recorded files, however other threads interleave before it records
      the next one, has room for it: the files' slots are pairwise distinct. */
  lemma ScratchNeverOverflows(c: Config, s: System, steps: seq<Step>, t: System, scratch: seq<FileId>, id: FileId)
    requires Run(c, s, steps, t) && Reachable(c, t)
    requires forall k | 0 <= k < |scratch| :: scratch[k] in s.due && RetireBackend(scratch[k]) !in steps
    requires forall j, k | 0 <= j < k < |scratch| :: scratch[j] != scratch[k]
    requires Offered(c, t, Reap) && AssertsHold(c, t, Reap) && id in Apply(c, t, Reap).due && id !in t.due
    ensures |scratch| < |t.sh.files|
    ensures forall k | 0 <= k < |scratch| :: scratch[k].slot != id.slot
  {
    hide Apply, AssertsHold, Offered, Run;
    forall k | 0 <= k < |scratch| ensures scratch[k] in t.due { DueStays(c, s, steps, t, scratch[k]); }
    ReapKeepsDue(c, t);
    ReachableStep(c, t, Reap);
    RetireScratchFits(c, Apply(c, t, Reap), scratch, id);
  }

  lemma ReapKeepsDue(c: Config, s: System)
    requires c.Valid() && Offered(c, s, Reap) && AssertsHold(c, s, Reap)
    ensures s.due <= Apply(c, s, Reap).due && |Apply(c, s, Reap).sh.files| == |s.sh.files|
  {
    hide Finish;
    var slot := s.cq[0].token.slot;
    var p := RingProgress(EntryAt(s.sh.slots, slot), s.cq[0].raw, c.retryBound).1;
    if p.Finished? { FinishKeepsDue(c, s.(cq := s.cq[1..]), slot, p.outcome); }
  }

  // ---------------------------------------------------------------- the ready order

  lemma FinishKeepsReady(c: Config, s: System, slot: nat, outcome: Outcome)
    requires c.granule > 0 && Occupied(s.sh.slots, slot)
    requires EndingOf(EntryAt(s.sh.slots, slot), outcome).Freed? ==>
               CanComplete(s.sh.files, EntryAt(s.sh.slots, slot).fd)
    ensures Finish(c, s, slot, outcome).sh.ready == s.sh.ready
  {
  }

  lemma GiveBackKeepsReady(c: Config, s: System, slot: nat)
    requires IsHeld(s.sh.slots, slot) && CanComplete(s.sh.files, EntryAt(s.sh.slots, slot).fd)
    ensures GiveBack(c, s, slot).sh.ready == s.sh.ready
  {
  }

  /** The ready order loses its head to a prepare and gains an operation where a submission is placed, or
      at its end; nothing else moves in it. */
  lemma ReadyMoves(c: Config, s: System, step: Step, i: nat)
    requires c.Valid() && Offered(c, s, step) && AssertsHold(c, s, step) && i < |s.sh.ready|
    ensures var ready := Apply(c, s, step).sh.ready;
            if step.Prepare? then i > 0 ==> i - 1 < |ready| && ready[i - 1] == s.sh.ready[i]
            else if step.Submit? && Admit(c, s.sh, step.req.fd).Admitted? && step.position <= i then
              i + 1 < |ready| && ready[i + 1] == s.sh.ready[i]
            else i < |ready| && ready[i] == s.sh.ready[i]
  {
    hide Finish, GiveBack, Admit;
    match step
    case Reap =>
      var slot := s.cq[0].token.slot;
      var p := RingProgress(EntryAt(s.sh.slots, slot), s.cq[0].raw, c.retryBound).1;
      if p.Finished? { FinishKeepsReady(c, s.(cq := s.cq[1..]), slot, p.outcome); }
    case Publish(token, outcome, _) =>
      FinishKeepsReady(c, s.(executing := s.executing - {token}), token.slot, outcome);
    case DropLease(token) => if Contains(s.sh.slots, token) { GiveBackKeepsReady(c, s, token.slot); }
    case Abandon(slot) => GiveBackKeepsReady(c, s, slot);
    case _ =>
  }

  /** A run in which every submission joins the end of the ready order, as every backend but a seeded
      mock places it. */
  ghost predicate AppendingRun(c: Config, s: System, steps: seq<Step>, t: System)
    decreases |steps|
  {
    if steps == [] then s == t
    else
      && c.Valid() && Offered(c, s, steps[0]) && AssertsHold(c, s, steps[0]) && !Exhausted(c, s, steps[0])
      && (steps[0].Submit? ==> steps[0].position == |s.sh.ready|)
      && AppendingRun(c, Apply(c, s, steps[0]), steps[1..], t)
  }

  function Prepares(steps: seq<Step>): nat {
    if steps == [] then 0 else (if steps[0].Prepare? then 1 else 0) + Prepares(steps[1..])
  }

  /** First come, first served: the operation with `i` others before it moves up by one with each
      prepare and by nothing else, so the prepare after the first `i` takes it. Retries and
      continuations go behind whatever waits. */
  lemma {:induction false} ServedInOrder(c: Config, s: System, steps: seq<Step>, t: System, i: nat)
    requires AppendingRun(c, s, steps, t) && i < |s.sh.ready| && Prepares(steps) <= i
    ensures i - Prepares(steps) < |t.sh.ready| && t.sh.ready[i - Prepares(steps)] == s.sh.ready[i]
    decreases |steps|
  {
    hide Apply, AssertsHold, Exhausted, Offered, Admit;
    if steps != [] {
      ReadyMoves(c, s, steps[0], i);
      ServedInOrder(c, Apply(c, s, steps[0]), steps[1..], t, if steps[0].Prepare? then i - 1 else i);
    }
  }
}
