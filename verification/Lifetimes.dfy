/** One operation from submission to the end: what its slot stores stays the same request, moved on
    by the bytes done so far, and its token is never met again once it is over. */
module Lifetimes {
  import opened Types
  import opened Ops
  import opened Core
  import opened Invariant
  import opened PreserveSlab
  import opened Theorems
  import opened Runs
  import opened Arithmetic

  /** The same request with its first bytes done: its file range shrinks from the front but is never
      used up, its destination moves along, wrapping from frame to frame for a vector. A point read or
      a barrier does not move. */
  predicate Advanced(c: Config, e: Entry, e': Entry)
    requires c.granule > 0
  {
    && e'.kind == e.kind && e'.fd == e.fd && e'.vector == e.vector && e'.lease == e.lease && e'.writeSlot == e.writeSlot
    && e.fileOffset <= e'.fileOffset && e'.fileOffset + e'.requestedLen == e.fileOffset + e.requestedLen
    && (e.requestedLen > 0 ==> e'.requestedLen > 0) && (e.kind.Write? || e.vector || e'.fileOffset == e.fileOffset)
    && e'.destinationOffset == Moved(c.granule, e.vector, e.destinationOffset, e'.fileOffset - e.fileOffset)
  }

  /** Where the rest of a request goes after `moved` bytes. */
  function Moved(granule: nat, vector: bool, start: nat, moved: nat): nat
    requires granule > 0
  {
    if vector && moved > 0 then (start + moved) % granule else start + moved
  }

  lemma MovedTwice(granule: nat, vector: bool, start: nat, a: nat, b: nat)
    requires granule > 0
    ensures Moved(granule, vector, Moved(granule, vector, start, a), b) == Moved(granule, vector, start, a + b)
  {
    WrapTwice(start + a, b, granule);
  }

  /** What a slot stores for a request, in the request's own terms. A point read is stored as it was
      asked for and a barrier as one; a write or a vector read may have a prefix of its range done. */
  predicate Serves(c: Config, req: Request, e: Entry)
    requires c.granule > 0
  {
    && e.fd == req.fd
    && match req
       case ReadRequest(_, offset, destinationOffset, len, lease) =>
         && e.kind.Read? && !e.vector && e.lease == lease && e.writeSlot.None?
         && e.fileOffset == offset && e.destinationOffset == destinationOffset && e.requestedLen == len > 0
       case VectorRequest(_, offset, frames, lease) =>
         && e.kind.Read? && e.vector && e.lease == lease && e.writeSlot.None?
         && offset <= e.fileOffset < e.fileOffset + e.requestedLen == offset + frames * c.granule
         && e.destinationOffset == (e.fileOffset - offset) % c.granule
       case WriteRequest(_, offset, w) =>
         && e.kind.Write? && !e.vector && e.lease.Absent? && e.writeSlot == Some(w)
         && offset <= e.fileOffset < e.fileOffset + e.requestedLen == offset + c.granule
         && e.destinationOffset == e.fileOffset - offset
       case FsyncRequest(_) =>
         && e.kind.Fsync? && !e.vector && e.lease.Absent? && e.writeSlot.None?
         && e.fileOffset == e.destinationOffset == e.requestedLen == 0
  }

  /** The request as stored at first, or moved on, serves it. */
  lemma AdvancedServes(c: Config, req: Request, e: Entry)
    requires c.granule > 0 && WellFormed(c, req) && Advanced(c, EntryOf(c, req), e)
    ensures Serves(c, req, e)
  {
    match req
    case ReadRequest(_, _, _, _, _) =>
    case VectorRequest(_, offset, frames, _) => VectorServes(c, req, e);
    case WriteRequest(_, _, _) =>
    case FsyncRequest(_) =>
  }

  lemma VectorServes(c: Config, req: Request, e: Entry)
    requires c.granule > 0 && req.VectorRequest? && WellFormed(c, req) && Advanced(c, EntryOf(c, req), e)
    ensures Serves(c, req, e)
  {
    WholeFrames(req.frames, c.granule);
    assert 0 % c.granule == 0;
  }

  lemma WholeFrames(frames: nat, granule: nat)
    requires frames > 0 && granule > 0
    ensures frames * granule > 0
  {
    MulAtLeast(frames, granule);
  }

  /** Tokens of this slot up to its present generation. */
  predicate Past(slots: seq<SlabSlot>, t: OpToken) {
    t.slot < |slots| && t.generation <= slots[t.slot].generation
  }

  /** What a step may do to a token: move its request on, or forget it for good. */
  ghost predicate Follows(c: Config, slots: seq<SlabSlot>, slots': seq<SlabSlot>, t: OpToken)
    requires c.granule > 0
  {
    && (Past(slots, t) ==> Past(slots', t))
    && (Contains(slots', t) && Past(slots, t) ==>
          Contains(slots, t) && Advanced(c, EntryAt(slots, t.slot), EntryAt(slots', t.slot)))
  }

  /** One slot changed in place, emptied, or filled under the next generation. */
  lemma FollowsChange(c: Config, slots: seq<SlabSlot>, i: nat, x: SlabSlot, t: OpToken)
    requires c.granule > 0 && i < |slots|
    requires x.generation >= slots[i].generation
    requires x.payload.Some? && x.generation == slots[i].generation ==>
               slots[i].payload.Some? && Advanced(c, slots[i].payload.value, x.payload.value)
    ensures Follows(c, slots, slots[i := x], t)
  {
    hide Advanced;
    forall e: Entry ensures Advanced(c, e, e) { AdvancedRefl(c, e); }
  }

  lemma AdvancedRefl(c: Config, e: Entry)
    requires c.granule > 0
    ensures Advanced(c, e, e)
  {
  }

  lemma AdvancedTrans(c: Config, x: Entry, y: Entry, z: Entry)
    requires c.granule > 0 && Advanced(c, x, y) && Advanced(c, y, z)
    ensures Advanced(c, x, z)
  {
    hide Moved;
    MovedTwice(c.granule, x.vector, x.destinationOffset, y.fileOffset - x.fileOffset, z.fileOffset - y.fileOffset);
  }

  lemma RingAdvances(c: Config, e: Entry, raw: int)
    requires c.granule > 0 && (e.kind.Write? && raw >= 0 ==> raw <= e.requestedLen) && (e.vector ==> e.kind.Read?)
    ensures Advanced(c, e, RingProgress(e, raw, c.retryBound).0.(state := Queued))
  {
  }

  lemma FinishFollows(c: Config, s: System, slot: nat, outcome: Outcome, t: OpToken)
    requires c.granule > 0 && Occupied(s.sh.slots, slot)
    requires EndingOf(EntryAt(s.sh.slots, slot), outcome).Freed? ==>
             CanComplete(s.sh.files, EntryAt(s.sh.slots, slot).fd)
    ensures Follows(c, s.sh.slots, Finish(c, s, slot, outcome).sh.slots, t)
  {
    FollowsChange(c, s.sh.slots, slot, Finish(c, s, slot, outcome).sh.slots[slot], t);
  }

  lemma GiveBackFollows(c: Config, s: System, slot: nat, t: OpToken)
    requires c.granule > 0 && IsHeld(s.sh.slots, slot) && CanComplete(s.sh.files, EntryAt(s.sh.slots, slot).fd)
    ensures Follows(c, s.sh.slots, GiveBack(c, s, slot).sh.slots, t)
  {
    FollowsChange(c, s.sh.slots, slot, Vacate(s.sh.slots, slot)[slot], t);
  }

  lemma ReapFollows(c: Config, s: System, t: OpToken)
    requires Reachable(c, s) && Offered(c, s, Reap) && AssertsHold(c, s, Reap)
    ensures Follows(c, s.sh.slots, Apply(c, s, Reap).sh.slots, t)
  {
    hide Finish, Advanced, Follows;
    var slot, raw := s.cq[0].token.slot, s.cq[0].raw;
    var e := EntryAt(s.sh.slots, slot);
    match RingProgress(e, raw, c.retryBound).1
    case Finished(outcome) => FinishFollows(c, s.(cq := s.cq[1..]), slot, outcome, t);
    case Resubmit =>
      StoredShape(c, s, slot);
      RingAdvances(c, e, raw);
      FollowsChange(c, s.sh.slots, slot, Apply(c, s, Reap).sh.slots[slot], t);
  }

  lemma StoredShape(c: Config, s: System, slot: nat)
    requires Reachable(c, s) && Occupied(s.sh.slots, slot)
    ensures EntryOk(c, EntryAt(s.sh.slots, slot))
  {
    hide SlabOk, EntriesOk, ReadyOk, FlightOk, LeaseOk, FilesOk, RetireOk, BackendOk, KnownOk, ArenaOk, RoomOk,
         TokensOk, ScatterOk, CloseOk;
    ReachableInv(c, s);
    EntryFact(c, s.sh.slots, slot);
  }

  /** Every step either moves a live request on or forgets its token. */
  lemma StepFollows(c: Config, s: System, step: Step, t: OpToken)
    requires Reachable(c, s) && Offered(c, s, step) && AssertsHold(c, s, step)
    ensures Follows(c, s.sh.slots, Apply(c, s, step).sh.slots, t)
  {
    hide Finish, GiveBack, Advanced, Follows;
    var slots := s.sh.slots;
    match step
    case Reap => ReapFollows(c, s, t);
    case Publish(token, outcome, _) => FinishFollows(c, s.(executing := s.executing - {token}), token.slot, outcome, t);
    case DropLease(token) =>
      if Contains(slots, token) { GiveBackFollows(c, s, token.slot, t); } else { FollowsSame(c, slots, t); }
    case Abandon(slot) => GiveBackFollows(c, s, slot, t);
    case Submit(req, _) =>
      var a := Admit(c, s.sh, req.fd);
      if a.Admitted? {
        FollowsChange(c, slots, a.slot, Apply(c, s, step).sh.slots[a.slot], t);
      } else {
        FollowsSame(c, slots, t);
      }
    case Prepare => RestateFollows(c, slots, s.sh.ready[0], EntryAt(Activate(c, s.sh).slots, s.sh.ready[0]), t);
    case Continue(token) =>
      RestateFollows(c, slots, token.slot, EntryAt(Resume(s.sh, token.slot).slots, token.slot), t);
    case _ => FollowsSame(c, slots, t);
  }

  lemma FollowsSame(c: Config, slots: seq<SlabSlot>, t: OpToken)
    requires c.granule > 0
    ensures Follows(c, slots, slots, t)
  {
  }

  /** A change of state, ownership or retries moves nothing. */
  lemma RestateFollows(c: Config, slots: seq<SlabSlot>, i: nat, e: Entry, t: OpToken)
    requires c.granule > 0 && Occupied(slots, i)
    requires e == EntryAt(slots, i).(state := e.state, frame := e.frame, retries := e.retries)
    ensures Follows(c, slots, SetEntry(slots, i, e), t)
  {
    FollowsChange(c, slots, i, SetEntry(slots, i, e)[i], t);
  }

  lemma {:induction false} RunFollows(c: Config, s: System, steps: seq<Step>, u: System, t: OpToken)
    requires Reachable(c, s) && Run(c, s, steps, u)
    ensures Follows(c, s.sh.slots, u.sh.slots, t)
    decreases |steps|
  {
    hide Apply, AssertsHold, Exhausted, Offered, Advanced;
    if steps == [] {
      if Contains(s.sh.slots, t) { AdvancedRefl(c, EntryAt(s.sh.slots, t.slot)); }
    } else {
      var s' := Apply(c, s, steps[0]);
      StepFollows(c, s, steps[0], t);
      ReachableStep(c, s, steps[0]);
      RunFollows(c, s', steps[1..], u, t);
      if Contains(u.sh.slots, t) && Past(s.sh.slots, t) {
        AdvancedTrans(c, EntryAt(s.sh.slots, t.slot), EntryAt(s'.sh.slots, t.slot), EntryAt(u.sh.slots, t.slot));
      }
    }
  }

  /** From submission to the end of a run, over retries, short writes, continuations and whatever
      else happens, a live operation is the request that was submitted with a prefix of its range
      done: the requests it makes tile that range. A point read is repeated as it is. */
  lemma RequestIsConserved(c: Config, s: System, req: Request, position: nat, steps: seq<Step>, u: System)
    requires Reachable(c, s) && Offered(c, s, Submit(req, position)) && !Exhausted(c, s, Submit(req, position))
    requires Admit(c, s.sh, req.fd).Admitted?
    requires AssertsHold(c, s, Submit(req, position)) && Run(c, Apply(c, s, Submit(req, position)), steps, u)
    ensures var slot := Admit(c, s.sh, req.fd).slot;
            && slot < |s.sh.slots|
            && var t := OpToken(slot, s.sh.slots[slot].generation + 1);
               Contains(u.sh.slots, t) ==> Serves(c, req, EntryAt(u.sh.slots, slot))
  {
    SubmitIsWellFormed(c, s, req, position);
    hide Apply, Advanced, Serves, AssertsHold, Offered, Exhausted, Run, Admit, WellFormed, EntryOf;
    SubmitFills(c, s, req, position);
    ReachableStep(c, s, Submit(req, position));
    var slot := Admit(c, s.sh, req.fd).slot;
    RunFollows(c, Apply(c, s, Submit(req, position)), steps, u, OpToken(slot, s.sh.slots[slot].generation + 1));
    if Contains(u.sh.slots, OpToken(slot, s.sh.slots[slot].generation + 1)) {
      AdvancedServes(c, req, EntryAt(u.sh.slots, slot));
    }
  }

  lemma SubmitIsWellFormed(c: Config, s: System, req: Request, position: nat)
    requires Offered(c, s, Submit(req, position))
    ensures WellFormed(c, req)
  {
  }

  /** An admitted request is stored as submitted, under the next token of its slot. */
  lemma SubmitFills(c: Config, s: System, req: Request, position: nat)
    requires c.Valid() && Offered(c, s, Submit(req, position)) && AssertsHold(c, s, Submit(req, position))
    requires Admit(c, s.sh, req.fd).Admitted?
    ensures var slots, slot := Apply(c, s, Submit(req, position)).sh.slots, Admit(c, s.sh, req.fd).slot;
            && slot < |s.sh.slots| == |slots|
            && var t := OpToken(slot, s.sh.slots[slot].generation + 1);
               && Contains(slots, t) && Past(slots, t)
               && EntryAt(slots, slot) == EntryOf(c, req) && Serves(c, req, EntryAt(slots, slot))
  {
    AdvancedRefl(c, EntryOf(c, req));
    AdvancedServes(c, req, EntryOf(c, req));
  }

  // ---------------------------------------------------------------- every stored request

  /** Every live token is that of a request which its slot serves. */
  ghost predicate Stored(c: Config, s: System)
    requires c.granule > 0
  {
    forall t: OpToken | Contains(s.sh.slots, t) ::
      && t in s.hist.requests && WellFormed(c, s.hist.requests[t])
      && Advanced(c, EntryOf(c, s.hist.requests[t]), EntryAt(s.sh.slots, t.slot))
  }

  /** No slot was filled again. */
  ghost predicate SameFills(slots: seq<SlabSlot>, slots': seq<SlabSlot>) {
    |slots'| == |slots| && forall i: nat | i < |slots| :: slots'[i].generation == slots[i].generation
  }

  lemma SameFillsRefl(slots: seq<SlabSlot>)
    ensures SameFills(slots, slots)
  {
  }

  lemma RestateFills(slots: seq<SlabSlot>, i: nat, x: SlabSlot)
    requires i < |slots| && x.generation == slots[i].generation
    ensures SameFills(slots, slots[i := x])
  {
  }

  /** Only a submission fills a slot or records a request. */
  lemma OthersFillNothing(c: Config, s: System, step: Step)
    requires c.Valid() && Offered(c, s, step) && AssertsHold(c, s, step)
    requires !(step.Submit? && Admit(c, s.sh, step.req.fd).Admitted?)
    ensures var s' := Apply(c, s, step);
            s'.hist.requests == s.hist.requests && SameFills(s.sh.slots, s'.sh.slots)
  {
    hide Apply, AssertsHold, Offered, SameFills, Admit;
    if step.Reap? || step.Publish? {
      EndFillsNothing(c, s, step);
    } else if step.DropLease? || step.Abandon? {
      ReturnFillsNothing(c, s, step);
    } else {
      RestFillsNothing(c, s, step);
    }
  }

  lemma EndFillsNothing(c: Config, s: System, step: Step)
    requires c.Valid() && (step.Reap? || step.Publish?) && Offered(c, s, step) && AssertsHold(c, s, step)
    ensures var s' := Apply(c, s, step);
            s'.hist.requests == s.hist.requests && SameFills(s.sh.slots, s'.sh.slots)
  {
    hide Finish, SameFills;
    if step.Reap? {
      var slot := s.cq[0].token.slot;
      var p := RingProgress(EntryAt(s.sh.slots, slot), s.cq[0].raw, c.retryBound).1;
      if p.Finished? {
        FinishFillsNothing(c, s.(cq := s.cq[1..]), slot, p.outcome);
      } else {
        RestateFills(s.sh.slots, slot, Apply(c, s, Reap).sh.slots[slot]);
      }
    } else {
      FinishFillsNothing(c, s.(executing := s.executing - {step.token}), step.token.slot, step.outcome);
    }
  }

  lemma ReturnFillsNothing(c: Config, s: System, step: Step)
    requires c.Valid() && (step.DropLease? || step.Abandon?) && Offered(c, s, step) && AssertsHold(c, s, step)
    ensures var s' := Apply(c, s, step);
            s'.hist.requests == s.hist.requests && SameFills(s.sh.slots, s'.sh.slots)
  {
    hide GiveBack, SameFills;
    SameFillsRefl(s.sh.slots);
    if step.Abandon? {
      GiveBackFillsNothing(c, s, step.slot);
    } else if Contains(s.sh.slots, step.token) {
      GiveBackFillsNothing(c, s, step.token.slot);
    }
  }

  lemma RestFillsNothing(c: Config, s: System, step: Step)
    requires c.Valid() && Offered(c, s, step) && AssertsHold(c, s, step)
    requires !step.Reap? && !step.Publish? && !step.DropLease? && !step.Abandon?
    requires !(step.Submit? && Admit(c, s.sh, step.req.fd).Admitted?)
    ensures var s' := Apply(c, s, step);
            s'.hist.requests == s.hist.requests && SameFills(s.sh.slots, s'.sh.slots)
  {
    hide SameFills, Admit;
    if step.Prepare? || step.Continue? {
      RequeueFillsNothing(c, s, step);
    } else {
      SameFillsRefl(s.sh.slots);
      assert Apply(c, s, step).sh.slots == s.sh.slots;
    }
  }

  lemma RequeueFillsNothing(c: Config, s: System, step: Step)
    requires c.Valid() && (step.Prepare? || step.Continue?) && Offered(c, s, step) && AssertsHold(c, s, step)
    ensures var s' := Apply(c, s, step);
            s'.hist.requests == s.hist.requests && SameFills(s.sh.slots, s'.sh.slots)
  {
    var slot := if step.Prepare? then s.sh.ready[0] else step.token.slot;
    RestateFills(s.sh.slots, slot, Apply(c, s, step).sh.slots[slot]);
  }

  lemma FinishFillsNothing(c: Config, s: System, slot: nat, outcome: Outcome)
    requires c.granule > 0 && Occupied(s.sh.slots, slot)
    requires EndingOf(EntryAt(s.sh.slots, slot), outcome).Freed? ==>
             CanComplete(s.sh.files, EntryAt(s.sh.slots, slot).fd)
    ensures var s' := Finish(c, s, slot, outcome);
            s'.hist.requests == s.hist.requests && SameFills(s.sh.slots, s'.sh.slots)
  {
  }

  lemma GiveBackFillsNothing(c: Config, s: System, slot: nat)
    requires IsHeld(s.sh.slots, slot) && CanComplete(s.sh.files, EntryAt(s.sh.slots, slot).fd)
    ensures var s' := GiveBack(c, s, slot);
            s'.hist.requests == s.hist.requests && SameFills(s.sh.slots, s'.sh.slots)
  {
  }

  lemma SubmitRecords(c: Config, s: System, req: Request, position: nat)
    requires c.Valid() && Offered(c, s, Submit(req, position)) && AssertsHold(c, s, Submit(req, position))
    requires Admit(c, s.sh, req.fd).Admitted?
    ensures var s', slot := Apply(c, s, Submit(req, position)), Admit(c, s.sh, req.fd).slot;
            && WellFormed(c, req) && slot < |s.sh.slots| == |s'.sh.slots|
            && var t := OpToken(slot, s.sh.slots[slot].generation + 1);
               && s'.hist.requests == s.hist.requests[t := req]
               && s'.sh.slots == s.sh.slots[slot := SlabSlot(t.generation, Some(EntryOf(c, req)))]
  {
  }

  lemma StepStores(c: Config, s: System, step: Step)
    requires Reachable(c, s) && Offered(c, s, step) && AssertsHold(c, s, step) && Stored(c, s)
    ensures Stored(c, Apply(c, s, step))
  {
    hide Apply, AssertsHold, Offered, Advanced, EntryOf, WellFormed, Admit;
    var s' := Apply(c, s, step);
    if step.Submit? && Admit(c, s.sh, step.req.fd).Admitted? {
      SubmitRecords(c, s, step.req, step.position);
      AdvancedRefl(c, EntryOf(c, step.req));
    } else {
      OthersFillNothing(c, s, step);
      forall t: OpToken | Contains(s'.sh.slots, t)
        ensures t in s'.hist.requests && WellFormed(c, s'.hist.requests[t])
        ensures Advanced(c, EntryOf(c, s'.hist.requests[t]), EntryAt(s'.sh.slots, t.slot))
      {
        StepFollows(c, s, step, t);
        AdvancedTrans(c, EntryOf(c, s.hist.requests[t]), EntryAt(s.sh.slots, t.slot), EntryAt(s'.sh.slots, t.slot));
      }
    }
  }

  lemma {:induction false} RunStores(c: Config, s: System, steps: seq<Step>, t: System)
    requires Reachable(c, s) && Stored(c, s) && Run(c, s, steps, t)
    ensures Stored(c, t)
    decreases |steps|
  {
    hide Apply, AssertsHold, Exhausted, Offered, Stored;
    if steps != [] {
      StepStores(c, s, steps[0]);
      ReachableStep(c, s, steps[0]);
      RunStores(c, Apply(c, s, steps[0]), steps[1..], t);
    }
  }

  /** In every state of every run, each occupied slot serves the request its token was issued for. */
  lemma LiveServesItsRequest(c: Config, s: System, t: OpToken)
    requires Reachable(c, s) && Contains(s.sh.slots, t)
    ensures t in s.hist.requests && WellFormed(c, s.hist.requests[t])
    ensures Serves(c, s.hist.requests[t], EntryAt(s.sh.slots, t.slot))
  {
    var steps :| Run(c, Init(c), steps, s);
    assert Run(c, Init(c), [], Init(c));
    RunStores(c, Init(c), steps, s);
    AdvancedServes(c, s.hist.requests[t], EntryAt(s.sh.slots, t.slot));
  }

  /** A token never names a later fill of its slot: once its operation is over, no state of the rest
      of the run contains it. */
  lemma TokenIsNeverReused(c: Config, s: System, steps: seq<Step>, u: System, t: OpToken)
    requires Reachable(c, s) && Run(c, s, steps, u) && t in s.hist.issued && !Contains(s.sh.slots, t)
    ensures !Contains(u.sh.slots, t)
  {
    hide SlabOk, EntriesOk, ReadyOk, FlightOk, LeaseOk, FilesOk, RetireOk, BackendOk, KnownOk, ArenaOk, RoomOk,
         ScatterOk, CloseOk;
    ReachableInv(c, s);
    assert Past(s.sh.slots, t);
    RunFollows(c, s, steps, u, t);
  }

  lemma FinishReleases(c: Config, s: System, slot: nat, outcome: Outcome, t: OpToken)
    requires c.granule > 0 && Occupied(s.sh.slots, slot) && Contains(s.sh.slots, t)
    requires EndingOf(EntryAt(s.sh.slots, slot), outcome).Freed? ==>
             CanComplete(s.sh.files, EntryAt(s.sh.slots, slot).fd)
    ensures var s', w := Finish(c, s, slot, outcome), EntryAt(s.sh.slots, t.slot).writeSlot;
            !Contains(s'.sh.slots, t) && w.Some? && w.value < |s.arena| ==> w.value < |s'.arena| && s'.arena[w.value]
  {
  }

  lemma GiveBackSpares(c: Config, s: System, slot: nat, t: OpToken)
    requires IsHeld(s.sh.slots, slot) && CanComplete(s.sh.files, EntryAt(s.sh.slots, slot).fd)
             && Contains(s.sh.slots, t)
    ensures t.slot != slot ==> Contains(GiveBack(c, s, slot).sh.slots, t)
  {
  }

  /** Only ending an attempt or giving a held slot back empties a slot. */
  lemma OthersSpare(c: Config, s: System, step: Step, t: OpToken)
    requires c.Valid() && Offered(c, s, step) && AssertsHold(c, s, step) && Contains(s.sh.slots, t)
    requires !step.Reap? && !step.Publish? && !step.DropLease? && !step.Abandon?
    ensures Contains(Apply(c, s, step).sh.slots, t)
  {
  }

  /** The step that ends a write releases its staging slot. */
  lemma EndReleases(c: Config, s: System, step: Step, t: OpToken)
    requires Reachable(c, s) && Offered(c, s, step) && AssertsHold(c, s, step) && Contains(s.sh.slots, t)
    requires !Contains(Apply(c, s, step).sh.slots, t)
    ensures var s', w := Apply(c, s, step), EntryAt(s.sh.slots, t.slot).writeSlot;
            w.Some? && w.value < |s.arena| ==> w.value < |s'.arena| && s'.arena[w.value]
  {
    hide Finish, GiveBack;
    StoredShape(c, s, t.slot);
    match step
    case Reap =>
      var slot := s.cq[0].token.slot;
      var p := RingProgress(EntryAt(s.sh.slots, slot), s.cq[0].raw, c.retryBound).1;
      if p.Finished? { FinishReleases(c, s.(cq := s.cq[1..]), slot, p.outcome, t); }
    case Publish(token, outcome, _) =>
      FinishReleases(c, s.(executing := s.executing - {token}), token.slot, outcome, t);
    case DropLease(token) => if Contains(s.sh.slots, token) { GiveBackSpares(c, s, token.slot, t); }
    case Abandon(slot) => GiveBackSpares(c, s, slot, t);
    case _ => OthersSpare(c, s, step, t);
  }

  /** A staging slot a live write holds becomes free in exactly the step that frees that write's
      operation slot. */
  lemma StagingReleasedAtTheEnd(c: Config, s: System, step: Step, t: OpToken)
    requires Reachable(c, s) && Offered(c, s, step) && AssertsHold(c, s, step) && !Exhausted(c, s, step)
    requires Contains(s.sh.slots, t) && EntryAt(s.sh.slots, t.slot).writeSlot.Some?
    ensures var s', w := Apply(c, s, step), EntryAt(s.sh.slots, t.slot).writeSlot.value;
            w < |s'.arena| && (s'.arena[w] <==> !Contains(s'.sh.slots, t))
  {
    hide Inv, Apply, Exhausted, AssertsHold, Offered;
    StagingSlotsAreExclusive(c, s, t.slot, t.slot);
    ReachableStep(c, s, step);
    ArenaSize(c, s);
    ArenaSize(c, Apply(c, s, step));
    if Contains(Apply(c, s, step).sh.slots, t) {
      StepFollows(c, s, step, t);
      StagingSlotsAreExclusive(c, Apply(c, s, step), t.slot, t.slot);
    } else {
      EndReleases(c, s, step, t);
    }
  }

  // ---------------------------------------------------------------- eager writes

  /** No write has moved from the start of its staging slot. */
  ghost predicate WholeWrites(slots: seq<SlabSlot>) {
    forall i: nat | Occupied(slots, i) && EntryAt(slots, i).kind.Write? :: EntryAt(slots, i).destinationOffset == 0
  }

  lemma WholeChange(slots: seq<SlabSlot>, i: nat, x: SlabSlot)
    requires WholeWrites(slots) && i < |slots|
    requires x.payload.Some? && x.payload.value.kind.Write? ==>
               || x.payload.value.destinationOffset == 0
               || (Occupied(slots, i) && EntryAt(slots, i).kind.Write?
                   && x.payload.value.destinationOffset == EntryAt(slots, i).destinationOffset)
    ensures WholeWrites(slots[i := x])
  {
    var slots' := slots[i := x];
    forall j: nat | Occupied(slots', j) && EntryAt(slots', j).kind.Write?
      ensures EntryAt(slots', j).destinationOffset == 0
    {
      if j != i { assert Occupied(slots, j); }
    }
  }

  lemma FinishWhole(c: Config, s: System, slot: nat, outcome: Outcome)
    requires c.granule > 0 && Occupied(s.sh.slots, slot) && WholeWrites(s.sh.slots)
    requires EntryAt(s.sh.slots, slot).vector ==> EntryAt(s.sh.slots, slot).kind.Read?
    requires EndingOf(EntryAt(s.sh.slots, slot), outcome).Freed? ==>
             CanComplete(s.sh.files, EntryAt(s.sh.slots, slot).fd)
    ensures WholeWrites(Finish(c, s, slot, outcome).sh.slots)
  {
    WholeChange(s.sh.slots, slot, Finish(c, s, slot, outcome).sh.slots[slot]);
  }

  lemma GiveBackWhole(c: Config, s: System, slot: nat)
    requires IsHeld(s.sh.slots, slot) && CanComplete(s.sh.files, EntryAt(s.sh.slots, slot).fd)
             && WholeWrites(s.sh.slots)
    ensures WholeWrites(GiveBack(c, s, slot).sh.slots)
  {
    WholeChange(s.sh.slots, slot, Vacate(s.sh.slots, slot)[slot]);
  }

  lemma StepWhole(c: Config, s: System, step: Step)
    requires Reachable(c, s) && c.eager && Offered(c, s, step) && AssertsHold(c, s, step) && WholeWrites(s.sh.slots)
    ensures WholeWrites(Apply(c, s, step).sh.slots)
  {
    hide WholeWrites, Finish, GiveBack;
    var slots, slots' := s.sh.slots, Apply(c, s, step).sh.slots;
    match step
    case Publish(token, outcome, _) =>
      StoredShape(c, s, token.slot);
      FinishWhole(c, s.(executing := s.executing - {token}), token.slot, outcome);
    case DropLease(token) => if Contains(slots, token) { GiveBackWhole(c, s, token.slot); }
    case Abandon(slot) => GiveBackWhole(c, s, slot);
    case Submit(req, _) =>
      var a := Admit(c, s.sh, req.fd);
      if a.Admitted? { WholeChange(slots, a.slot, slots'[a.slot]); }
    case Prepare => WholeChange(slots, s.sh.ready[0], slots'[s.sh.ready[0]]);
    case Continue(token) => WholeChange(slots, token.slot, slots'[token.slot]);
    case _ =>
  }

  lemma {:induction false} RunWhole(c: Config, s: System, steps: seq<Step>, t: System)
    requires Reachable(c, s) && c.eager && WholeWrites(s.sh.slots) && Run(c, s, steps, t)
    ensures WholeWrites(t.sh.slots)
    decreases |steps|
  {
    hide Apply, AssertsHold, Exhausted, Offered, WholeWrites;
    if steps != [] {
      StepWhole(c, s, steps[0]);
      ReachableStep(c, s, steps[0]);
      RunWhole(c, Apply(c, s, steps[0]), steps[1..], t);
    }
  }

  /** The eager backend executes each write as it was submitted: the whole staging slot. */
  lemma EagerWritesAreWhole(c: Config, s: System, slot: nat)
    requires Reachable(c, s) && c.eager && Occupied(s.sh.slots, slot) && EntryAt(s.sh.slots, slot).kind.Write?
    ensures EntryAt(s.sh.slots, slot).destinationOffset == 0 && EntryAt(s.sh.slots, slot).requestedLen == c.granule
  {
    var steps :| Run(c, Init(c), steps, s);
    assert Run(c, Init(c), [], Init(c));
    RunWhole(c, Init(c), steps, s);
    StoredShape(c, s, slot);
  }
}
