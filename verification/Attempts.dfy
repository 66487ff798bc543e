/** How often an operation can come back from the ring, counted over whole runs of the driver. */
module Attempts {
  import opened Types
  import opened Ops
  import opened Core
  import opened Theorems
  import opened Lifetimes

  /** Completion entries an operation can still absorb: retries, the last one, and for a write a byte
      at a time. */
  function Allowance(e: Entry, bound: nat): nat {
    var retries := if e.retries < bound then bound - e.retries else 0;
    if e.kind.Write? && e.requestedLen > 0 then e.requestedLen + retries else retries + 1
  }

  /** The same for a token: nothing once its operation is gone. */
  function Left(slots: seq<SlabSlot>, t: OpToken, bound: nat): nat {
    if Contains(slots, t) then Allowance(EntryAt(slots, t.slot), bound) else 0
  }

  predicate Reaps(s: System, step: Step, t: OpToken) {
    step.Reap? && s.cq != [] && s.cq[0].token == t
  }

  /** How many completion entries carrying the token a run reaps. */
  function ReapsOf(c: Config, s: System, steps: seq<Step>, u: System, t: OpToken): nat
    requires Run(c, s, steps, u)
    decreases |steps|
  {
    if steps == [] then 0
    else (if Reaps(s, steps[0], t) then 1 else 0) + ReapsOf(c, Apply(c, s, steps[0]), steps[1..], u, t)
  }

  /** A resubmitted operation has one entry less to go. */
  lemma ResubmitCosts(e: Entry, raw: int, bound: nat)
    requires e.kind.Write? && raw >= 0 ==> raw <= e.requestedLen
    ensures var (e', p) := RingProgress(e, raw, bound);
            p.Resubmit? ==> Allowance(e'.(state := Queued), bound) < Allowance(e, bound)
  {
  }

  lemma FinishLeft(c: Config, s: System, slot: nat, outcome: Outcome, t: OpToken)
    requires c.granule > 0 && Occupied(s.sh.slots, slot) && Contains(s.sh.slots, t)
    requires !EntryAt(s.sh.slots, t.slot).vector
    requires EndingOf(EntryAt(s.sh.slots, slot), outcome).Freed? ==>
               CanComplete(s.sh.files, EntryAt(s.sh.slots, slot).fd)
    ensures var slots := Finish(c, s, slot, outcome).sh.slots;
            Left(slots, t, c.retryBound) == if slot == t.slot then 0 else Left(s.sh.slots, t, c.retryBound)
  {
  }

  lemma GiveBackLeft(c: Config, s: System, slot: nat, t: OpToken)
    requires IsHeld(s.sh.slots, slot) && CanComplete(s.sh.files, EntryAt(s.sh.slots, slot).fd)
    ensures Left(GiveBack(c, s, slot).sh.slots, t, c.retryBound) <= Left(s.sh.slots, t, c.retryBound)
  {
  }

  lemma ReapLeft(c: Config, s: System, t: OpToken)
    requires Reachable(c, s) && Offered(c, s, Reap) && AssertsHold(c, s, Reap) && Contains(s.sh.slots, t)
    requires !EntryAt(s.sh.slots, t.slot).vector
    ensures Left(Apply(c, s, Reap).sh.slots, t, c.retryBound) + (if s.cq[0].token == t then 1 else 0)
            <= Left(s.sh.slots, t, c.retryBound)
  {
    hide Finish;
    var slot, raw := s.cq[0].token.slot, s.cq[0].raw;
    var e := EntryAt(s.sh.slots, slot);
    match RingProgress(e, raw, c.retryBound).1
    case Finished(outcome) => FinishLeft(c, s.(cq := s.cq[1..]), slot, outcome, t);
    case Resubmit => ResubmitCosts(e, raw, c.retryBound);
  }

  /** A reaped entry costs its operation one; no other step gives a point operation any back. */
  lemma StepLeft(c: Config, s: System, step: Step, t: OpToken)
    requires Reachable(c, s) && Offered(c, s, step) && AssertsHold(c, s, step)
    requires Contains(s.sh.slots, t) && !EntryAt(s.sh.slots, t.slot).vector
    ensures Left(Apply(c, s, step).sh.slots, t, c.retryBound) + (if Reaps(s, step, t) then 1 else 0)
            <= Left(s.sh.slots, t, c.retryBound)
  {
    hide Finish, GiveBack;
    match step
    case Reap => ReapLeft(c, s, t);
    case Publish(token, outcome, _) =>
      FinishLeft(c, s.(executing := s.executing - {token}), token.slot, outcome, t);
    case DropLease(token) => if Contains(s.sh.slots, token) { GiveBackLeft(c, s, token.slot, t); }
    case Abandon(slot) => GiveBackLeft(c, s, slot, t);
    case Continue(token) => StoredShape(c, s, t.slot);
    case _ =>
  }

  lemma {:induction false} RunLeft(c: Config, s: System, steps: seq<Step>, u: System, t: OpToken)
    requires Reachable(c, s) && Run(c, s, steps, u) && Past(s.sh.slots, t)
    requires Contains(s.sh.slots, t) ==> !EntryAt(s.sh.slots, t.slot).vector
    ensures ReapsOf(c, s, steps, u, t) + Left(u.sh.slots, t, c.retryBound) <= Left(s.sh.slots, t, c.retryBound)
    decreases |steps|
  {
    hide Apply, Exhausted, Offered, Allowance;
    if steps != [] {
      var s' := Apply(c, s, steps[0]);
      StepFollows(c, s, steps[0], t);
      ReachableStep(c, s, steps[0]);
      if Contains(s.sh.slots, t) { StepLeft(c, s, steps[0], t); }
      RunLeft(c, s', steps[1..], u, t);
    }
  }

  /** From its submission on, however the run goes, at most length plus retry bound completion entries
      of a write are reaped, and retry bound plus one of a point read or a barrier. */
  lemma ReapsAreBounded(c: Config, s: System, req: Request, position: nat, steps: seq<Step>, u: System)
    requires Reachable(c, s) && Offered(c, s, Submit(req, position)) && !Exhausted(c, s, Submit(req, position))
    requires Admit(c, s.sh, req.fd).Admitted? && !req.VectorRequest?
    requires AssertsHold(c, s, Submit(req, position)) && Run(c, Apply(c, s, Submit(req, position)), steps, u)
    ensures var slot := Admit(c, s.sh, req.fd).slot;
            && slot < |s.sh.slots|
            && var t := OpToken(slot, s.sh.slots[slot].generation + 1);
               ReapsOf(c, Apply(c, s, Submit(req, position)), steps, u, t)
               <= (if req.WriteRequest? then c.granule + c.retryBound else c.retryBound + 1)
  {
    hide Apply, AssertsHold, Offered, Exhausted, Run, ReapsOf, Admit;
    SubmitFills(c, s, req, position);
    ReachableStep(c, s, Submit(req, position));
    var slot := Admit(c, s.sh, req.fd).slot;
    RunLeft(c, Apply(c, s, Submit(req, position)), steps, u, OpToken(slot, s.sh.slots[slot].generation + 1));
  }
}
