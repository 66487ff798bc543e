/** Draining an eager driver before it is dropped: what a batch of completions still entitles its
    holder to, and the measure each pass of the teardown loop brings down. */
module Teardown {
  import opened Types
  import opened Counting
  import opened Ops
  import opened Core
  import opened Invariant
  import opened PreserveSlab
  import opened PreserveLease
  import opened Steps
  import opened Theorems
  import opened Reaping

  /** Teardown continues a leased read that moved bytes and has some left. */
  predicate Resumable(d: Completion) {
    d.lease.Some? && BytesOf(d.outcome) > 0 && d.lease.value.remaining > 0
  }

  lemma ResumableIsPartial(t: OpToken, e: Entry, outcome: Outcome)
    requires e.vector ==> OutcomeFits(e, outcome)
    ensures Resumable(CompletionOf(t, e, outcome)) <==> EndingOf(e, outcome).Partial?
  {
  }

  /** What a waiting completion says of its lease agrees with that test. */
  ghost predicate BacklogOk(s: System) {
    forall k | 0 <= k < |s.sh.backlog| && s.sh.backlog[k].lease.Some? ::
      Resumable(s.sh.backlog[k]) <==> s.sh.backlog[k].lease.value.more
  }

  /** The only steps that touch the backlog. */
  lemma BacklogChange(c: Config, s: System, step: Step)
    requires c.Valid() && Offered(c, s, step) && AssertsHold(c, s, step)
    ensures var backlog := Apply(c, s, step).sh.backlog;
            if step.Publish? && step.toBacklog then
              var slot := step.token.slot;
              backlog == s.sh.backlog
                         + [CompletionOf(TokenAt(s.sh.slots, slot), EntryAt(s.sh.slots, slot), step.outcome)]
            else if step.Drain? then backlog == s.sh.backlog[1..]
            else backlog == s.sh.backlog
  {
    hide Finish, GiveBack;
    match step
    case Reap =>
      var slot := s.cq[0].token.slot;
      var p := RingProgress(EntryAt(s.sh.slots, slot), s.cq[0].raw, c.retryBound).1;
      if p.Finished? { FinishBacklog(c, s.(cq := s.cq[1..]), slot, p.outcome); }
    case Publish(token, outcome, _) => FinishBacklog(c, s.(executing := s.executing - {token}), token.slot, outcome);
    case DropLease(token) => if Contains(s.sh.slots, token) { GiveBackBacklog(c, s, token.slot); }
    case Abandon(slot) => GiveBackBacklog(c, s, slot);
    case _ =>
  }

  lemma FinishBacklog(c: Config, s: System, slot: nat, outcome: Outcome)
    requires c.granule > 0 && Occupied(s.sh.slots, slot)
    requires EndingOf(EntryAt(s.sh.slots, slot), outcome).Freed? ==>
             CanComplete(s.sh.files, EntryAt(s.sh.slots, slot).fd)
    ensures Finish(c, s, slot, outcome).sh.backlog == s.sh.backlog
  {
  }

  lemma GiveBackBacklog(c: Config, s: System, slot: nat)
    requires IsHeld(s.sh.slots, slot) && CanComplete(s.sh.files, EntryAt(s.sh.slots, slot).fd)
    ensures GiveBack(c, s, slot).sh.backlog == s.sh.backlog
  {
  }

  lemma BacklogStep(c: Config, s: System, step: Step)
    requires c.Valid() && Offered(c, s, step) && AssertsHold(c, s, step) && BacklogOk(s)
    ensures BacklogOk(Apply(c, s, step))
  {
    BacklogChange(c, s, step);
    hide Apply;
    if step.Publish? && step.toBacklog {
      var slot := step.token.slot;
      ResumableIsPartial(TokenAt(s.sh.slots, slot), EntryAt(s.sh.slots, slot), step.outcome);
    }
  }

  lemma {:induction false} RunBacklog(c: Config, s: System, steps: seq<Step>, t: System)
    requires BacklogOk(s) && Run(c, s, steps, t)
    ensures BacklogOk(t)
    decreases |steps|
  {
    hide Apply, AssertsHold, Exhausted, Offered, BacklogOk;
    if steps != [] {
      BacklogStep(c, s, steps[0]);
      RunBacklog(c, Apply(c, s, steps[0]), steps[1..], t);
    }
  }

  /** In every run the completions waiting in the backlog that teardown would continue are exactly
      the partial reads. */
  lemma ReachableBacklog(c: Config, s: System)
    requires Reachable(c, s)
    ensures BacklogOk(s)
  {
    var steps :| Run(c, Init(c), steps, s);
    RunBacklog(c, Init(c), steps, s);
  }

  /** The holder of the completion owns its lease. */
  predicate Usable(s: System, d: Completion) {
    d.lease.Some? ==> d.token in s.held && (Resumable(d) ==> s.held[d.token].more)
  }

  /** A batch of completions in its holder's hands, each with a lease of its own. The resumable reads
      among the first `stale` have been abandoned, those after them can still be continued. */
  ghost predicate Batch(s: System, done: seq<Completion>, stale: nat) {
    && (forall k | 0 <= k < |done| :: Usable(s, done[k]))
    && (forall j, k | 0 <= j < k < |done| && done[j].lease.Some? && done[k].lease.Some? ::
          done[j].token != done[k].token)
    && (forall k | 0 <= k < |done| && Resumable(done[k]) :: Contains(s.sh.slots, done[k].token) <==> k >= stale)
  }

  /** Changes that leave the leases of a batch alone. */
  lemma BatchFrame(s: System, s': System, done: seq<Completion>, stale: nat)
    requires Batch(s, done, stale)
    requires forall k | 0 <= k < |done| && done[k].lease.Some? ::
               && done[k].token in s'.held && s'.held[done[k].token] == s.held[done[k].token]
               && (Contains(s.sh.slots, done[k].token) <==> Contains(s'.sh.slots, done[k].token))
    ensures Batch(s', done, stale)
  {
  }

  lemma BatchSame(s: System, s': System, done: seq<Completion>, stale: nat)
    requires s'.held == s.held && s'.sh.slots == s.sh.slots
    ensures Batch(s, done, stale) <==> Batch(s', done, stale)
  {
  }

  /** One more completion, abandoned as long as all before it may be, else live. */
  lemma BatchSnoc(s: System, done: seq<Completion>, d: Completion, stale: nat, stale': nat)
    requires Batch(s, done, stale) && Usable(s, d)
    requires forall k | 0 <= k < |done| && done[k].lease.Some? && d.lease.Some? :: done[k].token != d.token
    requires stale' == stale <= |done| || (stale == |done| && stale' == stale + 1)
    requires Resumable(d) ==> (Contains(s.sh.slots, d.token) <==> stale' <= |done|)
    ensures Batch(s, done + [d], stale')
  {
  }

  lemma LeaseFact(slots: seq<SlabSlot>, backlog: seq<Completion>, held: Callers, tearing: bool, t: OpToken)
    requires LeaseOk(slots, backlog, held, tearing)
    ensures Leases(held, backlog, t) <= 1
    ensures ActiveToken(slots, t) ==> t !in held
    ensures t in held ==> t.slot < |slots|
  {
    assert Leases(held, backlog, t) <= One(t.slot < |slots|);
  }

  lemma HeldSlot(c: Config, s: System, t: OpToken)
    requires Reachable(c, s) && t in s.held
    ensures t.slot < |s.sh.slots|
  {
    hide SlabOk, EntriesOk, ReadyOk, FlightOk, LeaseOk, FilesOk, RetireOk, BackendOk, KnownOk, ArenaOk, RoomOk,
         TokensOk, ScatterOk, CloseOk;
    ReachableInv(c, s);
    LeaseFact(s.sh.slots, s.sh.backlog, s.held, s.tearing, t);
  }

  /** Every resumable read waiting in the backlog has been abandoned. */
  ghost predicate Orphaned(s: System) {
    forall k | 0 <= k < |s.sh.backlog| && Resumable(s.sh.backlog[k]) :: !Contains(s.sh.slots, s.sh.backlog[k].token)
  }

  /** With no slot held, none of them is live any more. */
  lemma NoneHeldMeansOrphaned(c: Config, s: System)
    requires Reachable(c, s) && forall i: nat :: !IsHeld(s.sh.slots, i)
    ensures Orphaned(s)
  {
    hide SlabOk, EntriesOk, ReadyOk, FlightOk, LeaseOk, FilesOk, RetireOk, BackendOk, KnownOk, ArenaOk, RoomOk,
         TokensOk, ScatterOk, CloseOk;
    ReachableInv(c, s);
    forall k | 0 <= k < |s.sh.backlog| && Resumable(s.sh.backlog[k])
      ensures !Contains(s.sh.slots, s.sh.backlog[k].token)
    {
      assert !IsHeld(s.sh.slots, s.sh.backlog[k].token.slot);
      LeaseAbandoned(s.sh.slots, s.sh.backlog, s.held, s.tearing, k);
    }
  }

  /** Draining a completion of an abandoned or finished read. */
  lemma BatchDrain(c: Config, s: System, done: seq<Completion>)
    requires Reachable(c, s) && s.sh.backlog != [] && Batch(s, done, |done|) && Orphaned(s)
    ensures Batch(Apply(c, s, Drain), done + [s.sh.backlog[0]], |done| + 1) && Orphaned(Apply(c, s, Drain))
  {
    hide SlabOk, EntriesOk, ReadyOk, FlightOk, LeaseOk, FilesOk, RetireOk, BackendOk, KnownOk, ArenaOk, RoomOk,
         TokensOk, ScatterOk, CloseOk;
    ReachableInv(c, s);
    ReachableBacklog(c, s);
    var d, s' := s.sh.backlog[0], Apply(c, s, Drain);
    if d.lease.Some? {
      LeaseFact(s.sh.slots, s.sh.backlog, s.held, s.tearing, d.token);
      CountMember(s.sh.backlog, 0, LeaseOf(d.token));
    }
    BatchFrame(s, s', done, |done|);
    BatchSnoc(s', done, d, |done|, |done| + 1);
  }

  /** Publishing an executed operation keeps the batch usable, with its own completion added. */
  lemma BatchPublish(c: Config, s: System, token: OpToken, outcome: Outcome, done: seq<Completion>, stale: nat)
    requires Reachable(c, s) && Offered(c, s, Publish(token, outcome, false))
    requires AssertsHold(c, s, Publish(token, outcome, false)) && Batch(s, done, stale) && stale <= |done|
    ensures ActiveToken(s.sh.slots, token)
    ensures Batch(Apply(c, s, Publish(token, outcome, false)),
                  done + [CompletionOf(token, EntryAt(s.sh.slots, token.slot), outcome)], stale)
  {
    hide SlabOk, EntriesOk, ReadyOk, FlightOk, LeaseOk, FilesOk, RetireOk, BackendOk, KnownOk, ArenaOk, RoomOk,
         TokensOk, ScatterOk, CloseOk;
    ReachableInv(c, s);
    FlightLive(s.sh.slots, s.executing, s.cq, token);
    LeaseFact(s.sh.slots, s.sh.backlog, s.held, s.tearing, token);
    PublishLease(c, s, token, outcome);
    ResumableIsPartial(token, EntryAt(s.sh.slots, token.slot), outcome);
    var s' := Apply(c, s, Publish(token, outcome, false));
    hide Apply;
    BatchFrame(s, s', done, stale);
    BatchSnoc(s', done, CompletionOf(token, EntryAt(s.sh.slots, token.slot), outcome), stale, stale);
  }

  /** What publishing does to leases. */
  lemma PublishLease(c: Config, s: System, token: OpToken, outcome: Outcome)
    requires c.Valid() && Offered(c, s, Publish(token, outcome, false))
             && AssertsHold(c, s, Publish(token, outcome, false))
    requires ActiveToken(s.sh.slots, token)
    ensures var d := CompletionOf(token, EntryAt(s.sh.slots, token.slot), outcome);
            var s' := Apply(c, s, Publish(token, outcome, false));
            && (d.lease.Some? ==> token in s'.held && s'.held[token] == d.lease.value)
            && (d.lease.Some? && d.lease.value.more ==> Contains(s'.sh.slots, token))
            && (forall t | t in s.held && t != token :: t in s'.held && s'.held[t] == s.held[t])
            && (forall t: OpToken | t != token :: Contains(s'.sh.slots, t) <==> Contains(s.sh.slots, t))
            && s'.sh.ready == s.sh.ready && s'.sh.backlog == s.sh.backlog && s'.tearing == s.tearing
            && s'.executing == s.executing - {token}
  {
  }

  /** Reaping keeps the batch usable too, with the completion it yields, if any, added. */
  lemma BatchReap(c: Config, s: System, done: seq<Completion>)
    requires Reachable(c, s) && Offered(c, s, Reap) && AssertsHold(c, s, Reap) && Batch(s, done, 0)
    ensures Batch(Apply(c, s, Reap), done + Emitted(c, s), 0)
  {
    hide SlabOk, EntriesOk, ReadyOk, FlightOk, LeaseOk, FilesOk, RetireOk, BackendOk, KnownOk, ArenaOk, RoomOk,
         TokensOk, ScatterOk, CloseOk;
    ReachableInv(c, s);
    var token := s.cq[0].token;
    FlightLive(s.sh.slots, s.executing, s.cq, token);
    LeaseFact(s.sh.slots, s.sh.backlog, s.held, s.tearing, token);
    var s', emitted := Apply(c, s, Reap), Emitted(c, s);
    ReapLease(c, s);
    hide Apply, Emitted, AssertsHold;
    BatchFrame(s, s', done, 0);
    if emitted == [] {
      assert done + emitted == done;
    } else {
      BatchSnoc(s', done, emitted[0], 0, 0);
      assert done + emitted == done + [emitted[0]];
    }
  }

  /** What reaping does to leases. */
  lemma ReapLease(c: Config, s: System)
    requires c.Valid() && Offered(c, s, Reap) && AssertsHold(c, s, Reap) && ActiveToken(s.sh.slots, s.cq[0].token)
    ensures var s', token, emitted := Apply(c, s, Reap), s.cq[0].token, Emitted(c, s);
            && |emitted| <= 1
            && (emitted != [] ==> emitted[0].token == token && Usable(s', emitted[0]))
            && (emitted != [] && Resumable(emitted[0]) ==> Contains(s'.sh.slots, token))
            && (forall t | t in s.held && t != token :: t in s'.held && s'.held[t] == s.held[t])
            && (forall t: OpToken | t != token :: Contains(s'.sh.slots, t) <==> Contains(s.sh.slots, t))
  {
  }

  lemma {:induction false} PassBatch(c: Config, s: System, limit: nat, stop: bool, done: seq<Completion>)
    requires Reachable(c, s) && !c.eager && Batch(s, done, 0)
    ensures var h := Pass(c, s, limit, stop);
            Batch(h.s, done + h.done, 0) && Load(h.s.sh.slots, c.retryBound) + h.count <= Load(s.sh.slots, c.retryBound)
    decreases limit
  {
    hide Apply, AssertsHold, Offered, Exhausted, Reachable, Batch, Load, Emitted;
    if limit == 0 || s.cq == [] {
      assert done + [] == done;
    } else {
      ReapIsSafe(c, s);
      BatchReap(c, s, done);
      ReapLoad(c, s);
      var here := Harvest(Apply(c, s, Reap), Emitted(c, s), RetireDueAt(c, s), 1);
      if !(stop && here.retires != []) {
        PassBatch(c, here.s, limit - 1, stop, done + here.done);
        assert done + here.done + Pass(c, here.s, limit - 1, stop).done
            == done + (here.done + Pass(c, here.s, limit - 1, stop).done);
      }
    }
  }

  // ---------------------------------------------------------------- the measure

  /** What a slot still stands for: its bytes, each with a full set of retries, the retries left
      now, and the operation's end if that is to come. */
  function SlotLoad(x: SlabSlot, bound: nat): nat {
    if x.payload.None? then 0 else EntryLoad(x.payload.value, bound)
  }

  function EntryLoad(e: Entry, bound: nat): nat {
    if e.state.Terminal? then 1
    else
      var retries := if e.state.Continuation? then 0 else e.retries;
      e.requestedLen * (bound + 1) + (if retries < bound then bound - retries else 0) + 2
  }

  function Load(slots: seq<SlabSlot>, bound: nat): nat {
    if slots == [] then 0 else SlotLoad(slots[0], bound) + Load(slots[1..], bound)
  }

  lemma {:induction false} LoadUpdate(slots: seq<SlabSlot>, i: nat, x: SlabSlot, bound: nat)
    requires i < |slots|
    ensures Load(slots[i := x], bound) + SlotLoad(slots[i], bound) == Load(slots, bound) + SlotLoad(x, bound)
  {
    if i == 0 {
      assert slots[i := x][1..] == slots[1..];
    } else {
      assert slots[i := x][1..] == slots[1..][i - 1 := x];
      LoadUpdate(slots[1..], i - 1, x, bound);
    }
  }

  lemma BytesWeigh(len: nat, bytes: nat, bound: nat)
    requires 0 < bytes <= len
    ensures (len - bytes) * (bound + 1) + bound + 1 <= len * (bound + 1)
  {
    assert len * (bound + 1) == (len - bytes) * (bound + 1) + bytes * (bound + 1);
    assert bytes * (bound + 1) == bound + 1 + (bytes - 1) * (bound + 1);
  }

  /** However an attempt ends, short and kept included, its slot weighs less. */
  lemma FinishLoad(c: Config, s: System, slot: nat, outcome: Outcome)
    requires c.granule > 0 && InState(s.sh.slots, slot, Active) && EntryAt(s.sh.slots, slot).retries <= c.retryBound
    requires EndingOf(EntryAt(s.sh.slots, slot), outcome).Freed? ==>
             CanComplete(s.sh.files, EntryAt(s.sh.slots, slot).fd)
    ensures Load(Finish(c, s, slot, outcome).sh.slots, c.retryBound) < Load(s.sh.slots, c.retryBound)
  {
    var e := EntryAt(s.sh.slots, slot);
    if !EndingOf(e, outcome).Freed? { HeldLoad(c, e, outcome); }
    hide Load, EntryLoad, HeldEntry, EndingOf;
    LoadIsPositive(e, c.retryBound);
    LoadUpdate(s.sh.slots, slot, Finish(c, s, slot, outcome).sh.slots[slot], c.retryBound);
  }

  lemma LoadIsPositive(e: Entry, bound: nat)
    ensures EntryLoad(e, bound) > 0
  {
  }

  lemma HeldLoad(c: Config, e: Entry, outcome: Outcome)
    requires c.granule > 0 && e.state.Active? && e.retries <= c.retryBound && !EndingOf(e, outcome).Freed?
    ensures EntryLoad(HeldEntry(c, e, outcome), c.retryBound) < EntryLoad(e, c.retryBound)
  {
    if EndingOf(e, outcome).Partial? { BytesWeigh(e.requestedLen, BytesOf(outcome), c.retryBound); }
  }

  lemma StoredRetries(c: Config, s: System, slot: nat)
    requires Reachable(c, s) && Occupied(s.sh.slots, slot)
    ensures EntryAt(s.sh.slots, slot).retries <= c.retryBound
  {
    hide SlabOk, EntriesOk, ReadyOk, FlightOk, LeaseOk, FilesOk, RetireOk, BackendOk, KnownOk, ArenaOk, RoomOk,
         TokensOk, ScatterOk, CloseOk;
    ReachableInv(c, s);
    EntryFact(c, s.sh.slots, slot);
  }

  /** Each executed operation brings the load down. */
  lemma PublishLoad(c: Config, s: System, token: OpToken, outcome: Outcome)
    requires Reachable(c, s) && Offered(c, s, Publish(token, outcome, false))
             && AssertsHold(c, s, Publish(token, outcome, false))
    ensures Load(Apply(c, s, Publish(token, outcome, false)).sh.slots, c.retryBound) < Load(s.sh.slots, c.retryBound)
  {
    hide Load, Finish;
    StoredRetries(c, s, token.slot);
    FinishLoad(c, s.(executing := s.executing - {token}), token.slot, outcome);
  }

  /** So does each reaped completion entry, retryable or not. */
  lemma ReapLoad(c: Config, s: System)
    requires Reachable(c, s) && Offered(c, s, Reap) && AssertsHold(c, s, Reap)
    ensures Load(Apply(c, s, Reap).sh.slots, c.retryBound) < Load(s.sh.slots, c.retryBound)
  {
    hide Load, Finish;
    var slot, raw := s.cq[0].token.slot, s.cq[0].raw;
    var e := EntryAt(s.sh.slots, slot);
    StoredRetries(c, s, slot);
    ReapActive(c, s);
    match RingProgress(e, raw, c.retryBound).1
    case Finished(outcome) => FinishLoad(c, s.(cq := s.cq[1..]), slot, outcome);
    case Resubmit =>
      if e.kind.Write? && raw > 0 { BytesWeigh(e.requestedLen, raw, c.retryBound); }
      LoadUpdate(s.sh.slots, slot, Apply(c, s, Reap).sh.slots[slot], c.retryBound);
  }

  lemma ReapActive(c: Config, s: System)
    requires Reachable(c, s) && s.cq != []
    ensures ActiveToken(s.sh.slots, s.cq[0].token)
  {
    hide Inv;
    ReachableInv(c, s);
    CqeFacts(c, s);
  }

  lemma PrepareLoad(c: Config, s: System)
    requires c.Valid() && Offered(c, s, Prepare) && AssertsHold(c, s, Prepare)
    ensures Load(Apply(c, s, Prepare).sh.slots, c.retryBound) == Load(s.sh.slots, c.retryBound)
  {
    LoadUpdate(s.sh.slots, s.sh.ready[0], Activate(c, s.sh).slots[s.sh.ready[0]], c.retryBound);
  }

  lemma ContinueLoad(c: Config, s: System, token: OpToken)
    requires c.Valid() && Offered(c, s, Continue(token)) && AssertsHold(c, s, Continue(token))
    ensures Load(Apply(c, s, Continue(token)).sh.slots, c.retryBound) == Load(s.sh.slots, c.retryBound)
  {
    LoadUpdate(s.sh.slots, token.slot, Resume(s.sh, token.slot).slots[token.slot], c.retryBound);
  }

  lemma GiveBackLoad(c: Config, s: System, slot: nat)
    requires c.Valid() && IsHeld(s.sh.slots, slot) && CanComplete(s.sh.files, EntryAt(s.sh.slots, slot).fd)
    ensures Load(GiveBack(c, s, slot).sh.slots, c.retryBound) < Load(s.sh.slots, c.retryBound)
  {
    LoadUpdate(s.sh.slots, slot, Vacate(s.sh.slots, slot)[slot], c.retryBound);
  }

  // ---------------------------------------------------------------- the batch after a poll

  /** The last completion of a batch, if resumable, may be offered for continuation; continuing a
      live one leaves the others as they are. */
  lemma ContinueLast(c: Config, s: System, done: seq<Completion>, stale: nat)
    requires Reachable(c, s) && done != [] && Batch(s, done, stale) && Resumable(done[|done| - 1])
    ensures var step, rest := Continue(done[|done| - 1].token), done[..|done| - 1];
            && Offered(c, s, step) && (Contains(s.sh.slots, step.token) <==> stale < |done|)
            && forall s' | Next(c, s, step, s') ::
                 && Batch(s', rest, stale) && Load(s'.sh.slots, c.retryBound) == Load(s.sh.slots, c.retryBound)
                 && s'.sh.backlog == s.sh.backlog && |s'.sh.ready| >= |s.sh.ready|
                 && s'.executing == s.executing && s'.tearing == s.tearing
  {
    var d, rest := done[|done| - 1], done[..|done| - 1];
    assert Usable(s, d);
    if AssertsHold(c, s, Continue(d.token)) {
      ContinueLoad(c, s, d.token);
      var s' := Apply(c, s, Continue(d.token));
      assert forall t: OpToken :: Contains(s'.sh.slots, t) <==> Contains(s.sh.slots, t);
      hide Apply, Contains, AssertsHold;
      BatchFrame(s, s', rest, stale);
    }
  }

  lemma DropFacts(c: Config, s: System, token: OpToken)
    requires c.Valid() && Offered(c, s, DropLease(token)) && AssertsHold(c, s, DropLease(token))
    ensures var s' := Apply(c, s, DropLease(token));
            && s'.held == s.held - {token} && Load(s'.sh.slots, c.retryBound) <= Load(s.sh.slots, c.retryBound)
            && s'.sh.backlog == s.sh.backlog && s'.sh.ready == s.sh.ready
            && s'.executing == s.executing && s'.tearing == s.tearing
            && forall t: OpToken | t != token :: Contains(s'.sh.slots, t) <==> Contains(s.sh.slots, t)
  {
    if Contains(s.sh.slots, token) { GiveBackLoad(c, s, token.slot); }
  }

  /** Its lease, if it has one, may be dropped, with the same effect. */
  lemma DropLast(c: Config, s: System, done: seq<Completion>, stale: nat)
    requires Reachable(c, s) && done != [] && Batch(s, done, stale) && done[|done| - 1].lease.Some?
    ensures var step, rest := DropLease(done[|done| - 1].token), done[..|done| - 1];
            && Offered(c, s, step)
            && forall s' | Next(c, s, step, s') ::
                 && Batch(s', rest, stale) && Load(s'.sh.slots, c.retryBound) <= Load(s.sh.slots, c.retryBound)
                 && s'.sh.backlog == s.sh.backlog && |s'.sh.ready| >= |s.sh.ready|
                 && s'.executing == s.executing && s'.tearing == s.tearing
  {
    var d, rest := done[|done| - 1], done[..|done| - 1];
    assert Usable(s, d);
    NoAssertFires(c, s, DropLease(d.token));
    DropFacts(c, s, d.token);
    hide Apply, Contains, AssertsHold;
    BatchFrame(s, Apply(c, s, DropLease(d.token)), rest, stale);
  }

  /** Abandoning a held slot frees that slot and leaves every other alone. */
  lemma AbandonFacts(c: Config, s: System, slot: nat)
    requires Reachable(c, s) && Offered(c, s, Abandon(slot))
    ensures forall s' | Next(c, s, Abandon(slot), s') ::
              && |s'.sh.slots| == |s.sh.slots| && Load(s'.sh.slots, c.retryBound) <= Load(s.sh.slots, c.retryBound)
              && (forall i: nat | IsHeld(s'.sh.slots, i) :: i != slot && IsHeld(s.sh.slots, i))
              && s'.sh.backlog == s.sh.backlog && s'.sh.ready == s.sh.ready
              && s'.executing == s.executing && s'.tearing == s.tearing
  {
    NoAssertFires(c, s, Abandon(slot));
    GiveBackLoad(c, s, slot);
  }

  // ---------------------------------------------------------------- idleness

  lemma {:induction false} EagerPostsNothing(c: Config, s: System, steps: seq<Step>, t: System)
    requires c.eager && s.cq == [] && Run(c, s, steps, t)
    ensures t.cq == []
    decreases |steps|
  {
    if steps != [] {
      assert Apply(c, s, steps[0]).cq == [];
      hide Apply, AssertsHold, Exhausted;
      EagerPostsNothing(c, Apply(c, s, steps[0]), steps[1..], t);
    }
  }

  /** A driver without file slots has nothing in flight. */
  lemma NoFilesNoOperations(c: Config, s: System, t: OpToken)
    requires Reachable(c, s) && c.fileCapacity == 0
    ensures t !in s.executing && TotalInflight(s.sh.files) == 0
  {
    hide SlabOk, EntriesOk, ReadyOk, LeaseOk, RetireOk, KnownOk, ArenaOk, RoomOk, TokensOk, ScatterOk, CloseOk;
    ReachableInv(c, s);
    assert Outstanding(s.executing, s.cq, t) == One(ActiveToken(s.sh.slots, t));
  }

  lemma {:induction false} KeepsNoBacklog(c: Config, s: System, steps: seq<Step>, t: System)
    requires (!c.eager || c.fileCapacity == 0) && Reachable(c, s) && s.sh.backlog == [] && Run(c, s, steps, t)
    ensures t.sh.backlog == []
    decreases |steps|
  {
    hide Apply, AssertsHold, Exhausted, Offered, Reachable;
    if steps != [] {
      StepNoBacklog(c, s, steps[0]);
      ReachableStep(c, s, steps[0]);
      KeepsNoBacklog(c, Apply(c, s, steps[0]), steps[1..], t);
    }
  }

  lemma StepNoBacklog(c: Config, s: System, step: Step)
    requires (!c.eager || c.fileCapacity == 0) && Reachable(c, s) && s.sh.backlog == []
    requires Offered(c, s, step) && AssertsHold(c, s, step)
    ensures Apply(c, s, step).sh.backlog == []
  {
    hide Apply;
    BacklogChange(c, s, step);
    if step.Publish? { NoFilesNoOperations(c, s, step.token); }
  }

  /** Only an eager driver with a file to work on ever puts a completion into the backlog. */
  lemma BacklogStaysEmpty(c: Config, s: System)
    requires Reachable(c, s) && (!c.eager || c.fileCapacity == 0)
    ensures s.sh.backlog == []
  {
    var steps :| Run(c, Init(c), steps, s);
    assert Run(c, Init(c), [], Init(c));
    KeepsNoBacklog(c, Init(c), steps, s);
  }

  lemma EagerQueueIsEmpty(c: Config, s: System)
    requires Reachable(c, s) && c.eager
    ensures s.cq == []
  {
    var steps :| Run(c, Init(c), steps, s);
    EagerPostsNothing(c, Init(c), steps, s);
  }

  /** With nothing ready, executing or posted, only held reads are in flight. */
  lemma IdleMeansHeld(c: Config, s: System, i: nat)
    requires Reachable(c, s) && s.sh.ready == [] && s.executing == {} && s.cq == [] && Occupied(s.sh.slots, i)
    ensures IsHeld(s.sh.slots, i)
  {
    hide SlabOk, EntriesOk, LeaseOk, RetireOk, BackendOk, KnownOk, ArenaOk, RoomOk, TokensOk, ScatterOk, CloseOk;
    ReachableInv(c, s);
    var slots := s.sh.slots;
    assert Count(s.sh.ready, Is(i)) == One(InState(slots, i, Queued));
    assert Outstanding(s.executing, s.cq, TokenAt(slots, i)) == One(ActiveToken(slots, TokenAt(slots, i)));
  }

  /** And with no read held either, nothing is. */
  lemma IdleMeansDrained(c: Config, s: System)
    requires Reachable(c, s) && s.sh.ready == [] && s.executing == {} && s.cq == []
    requires forall i: nat :: !IsHeld(s.sh.slots, i)
    ensures TotalInflight(s.sh.files) == 0
  {
    hide SlabOk, EntriesOk, ReadyOk, FlightOk, LeaseOk, RetireOk, BackendOk, KnownOk, ArenaOk, RoomOk, TokensOk,
         ScatterOk, CloseOk;
    ReachableInv(c, s);
    forall i | 0 <= i < |s.sh.slots| ensures !Filled()(s.sh.slots[i]) {
      if s.sh.slots[i].payload.Some? { IdleMeansHeld(c, s, i); }
    }
    CountNone(s.sh.slots, Filled());
  }

  /** What waits in the ready order is in flight. */
  lemma ReadyMeansInflight(c: Config, s: System)
    requires Reachable(c, s) && s.sh.ready != []
    ensures TotalInflight(s.sh.files) > 0
  {
    hide SlabOk, EntriesOk, ReadyOk, FlightOk, LeaseOk, RetireOk, BackendOk, KnownOk, ArenaOk, RoomOk, TokensOk,
         ScatterOk, CloseOk;
    ReachableInv(c, s);
    ReadyHead(s.sh.slots, s.sh.ready);
    CountMember(s.sh.slots, s.sh.ready[0], Filled());
  }
}
