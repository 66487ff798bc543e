/** The driver core over the mock ring and over an eager executor, as the code runs it: the locked
    regions as methods on the guarded structures, each one step of the state machine. A ghost copy
    of the system state ties them together. The asserts of a region are asserts here, but for the one
    that can fire, which is a result. */
module Driver {
  import opened Types
  import opened Counting
  import opened Ops
  import opened Core
  import opened Invariant
  import opened Steps
  import opened Theorems
  import opened Runs
  import opened Reaping
  import opened Tables
  import opened Teardown
  import opened Lifetimes
  import opened Results
  import MockDisk
  import Retry
  import PreserveSlab

  const QUIESCE_IDLE_MAX: nat := 1_000_000

  class DriverCore {
    const config: Config
    const slab: CompletionSlab
    const files: FileTable
    var ready: seq<nat>
    var backlog: seq<Completion>
    var deferred: seq<Deferred>
    var arena: seq<bool>
    var registered: seq<Option<nat>>
    var cqes: seq<Cqe>
    ghost var sys: System

    ghost const Repr: set<object>

    function View(): Shared
      reads this, slab, slab.slots, files, files.slots
    {
      Shared(slab.slots[..], slab.free, files.slots[..], ready, backlog, deferred)
    }

    ghost predicate Valid()
      reads this, slab, slab.slots, files, files.slots
    {
      && Repr == {this, slab, slab.slots, files.slots}
      && Reachable(config, sys)
      && sys.sh == View() && sys.arena == arena && sys.registered == registered && sys.cq == cqes
    }

    /** What the operations in flight can still go through. */
    ghost function Left(s: System): nat { Load(s.sh.slots, config.retryBound) }

    constructor (config: Config)
      requires config.Valid()
      ensures Valid() && fresh(Repr) && this.config == config && sys == Init(config)
    {
      this.config := config;
      var slab := new CompletionSlab(config.capacity);
      var files := new FileTable(config.fileCapacity);
      this.slab, this.files := slab, files;
      ready, backlog, deferred, cqes := [], [], [], [];
      arena, registered := Empty(config.writeSlots, true), Empty(config.fileCapacity, None);
      sys := Init(config);
      Repr := {this, slab, slab.slots, files.slots};
      new;
      assert Run(config, Init(config), [], sys);
    }

    /** The step is safe to take, and taking it keeps the run going. */
    ghost method Take(step: Step)
      requires Reachable(config, sys) && Offered(config, sys, step) && !Exhausted(config, sys, step)
               && !StaleContinue(sys, step)
      modifies this`sys
      ensures AssertsHold(config, old(sys), step)
      ensures sys == Apply(config, old(sys), step) && Reachable(config, sys)
    {
      NoAssertFires(config, sys, step);
      ReachableStep(config, sys, step);
      sys := Apply(config, sys, step);
    }

    // -------------------------------------------------------------- files

    method ReserveFile() returns (id: Option<FileId>)
      requires Valid() && !sys.tearing && !Exhausted(config, sys, Step.ReserveFile)
      modifies Repr
      ensures Valid() && Next(config, old(sys), Step.ReserveFile, sys)
      ensures id.Some? ==> sys.opening == old(sys).opening + {id.value}
      ensures id.None? ==> sys == old(sys)
    {
      Take(Step.ReserveFile);
      id := files.Open();
    }

    /** The backend keeps the opened file; its entry for the slot is always empty. */
    method RegisterFile(id: FileId)
      requires Valid() && id in sys.opening
      modifies Repr
      ensures Valid() && Next(config, old(sys), Step.RegisterFile(id), sys)
    {
      Take(Step.RegisterFile(id));
      assert id.slot < |registered|;
      assert registered[id.slot].None?;
      registered := registered[id.slot := Some(id.generation)];
    }

    method AbortFile(id: FileId)
      requires Valid() && id in sys.opening
      modifies Repr
      ensures Valid() && Next(config, old(sys), Step.AbortFile(id), sys)
    {
      Take(Step.AbortFile(id));
      files.AbortOpen(id);
    }

    /** Closing retires the file at once if nothing is in flight. */
    method Close(id: FileId) returns (due: bool)
      requires Valid() && id in sys.handles
      modifies Repr
      ensures Valid() && Next(config, old(sys), Step.Close(id), sys)
      ensures due <==> id in sys.due
    {
      ghost var s := sys;
      assert id !in s.due by {
        ReachableInv(config, s);
        assert Retiring(s.sh.deferred, s.due, s.cleared, id) == One(Drained(s.sh.files, id));
      }
      Take(Step.Close(id));
      due := files.Close(id);
    }

    /** Tells the backend and then the table that a drained file is gone. The backend entry removed
        is that of the very generation being closed. */
    method Retire(id: FileId)
      requires Valid() && id in sys.due
      modifies Repr
      ensures Valid() && exists mid ::
              Next(config, old(sys), RetireBackend(id), mid) && Next(config, mid, Step.FinishRetire(id), sys)
      ensures sys.due == old(sys).due - {id} && sys.held == old(sys).held && sys.tearing == old(sys).tearing
              && sys.executing == old(sys).executing
      ensures sys.sh == old(sys).sh.(files := sys.sh.files) && sys.cq == old(sys).cq
      ensures sys.hist == old(sys).hist.(retired := sys.hist.retired) && sys.handles == old(sys).handles
      ensures FilesAdvance(old(sys).sh.files, sys.sh.files) && Gone(sys.sh.files, id)
    {
      RetireFile(id);
      ghost var mid := sys;
      Take(Step.FinishRetire(id));
      StepAdvances(config, mid, Step.FinishRetire(id));
      files.FinishRetire(id);
    }

    method RetireFile(id: FileId)
      requires Valid() && id in sys.due
      modifies this
      ensures Valid() && Next(config, old(sys), RetireBackend(id), sys)
    {
      Take(RetireBackend(id));
      assert id.slot < |registered|;
      assert registered[id.slot] == Some(id.generation);
      registered := registered[id.slot := None];
    }

    /** The whole of closing a handle: the file reads as closed at once exactly if no operation is in
        flight on it, and nothing is left due that was not before. */
    method CloseFile(id: FileId)
      requires Valid() && id in sys.handles
      modifies Repr
      ensures Valid() && sys.handles == old(sys).handles - {id} && id in sys.hist.closed
      ensures Handed(old(sys), sys, []) && deferred == [] && !IsLive(sys.sh.files, id)
      ensures Gone(sys.sh.files, id) <==> forall i: nat | Occupied(old(sys).sh.slots, i) ::
                EntryAt(old(sys).sh.slots, i).fd != id
    {
      hide Apply, AssertsHold, Exhausted, Offered, Reachable, Next, Draining, Gone, Retiring;
      FlushDeferred();
      ghost var flushed := sys;
      CloseFacts(config, sys, id);
      var due := Close(id);
      assert Next(config, flushed, Step.Close(id), sys);
      if due { Retire(id); }
      ClosesExactlyOnce(config, sys, id);
    }

    // -------------------------------------------------------------- submission

    /** Liveness, capacity, then a slot from the free list, which the capacity test guarantees. */
    method AdmitOp(fd: FileId) returns (a: Admission)
      requires Valid() && fd in sys.known
      modifies slab`free
      ensures a == Admit(config, sys.sh, fd)
      ensures View() == if a.Admitted? then sys.sh.(free := sys.sh.free[..|sys.sh.free| - 1]) else sys.sh
    {
      AdmissionIsExact(config, sys, fd);
      var live := files.IsLive(fd);
      if live {
        var retained := |backlog| + |deferred|;
        var inflight := files.TotalInflight();
        if inflight + retained >= config.capacity {
          a := Full;
        } else {
          var slot := slab.Reserve();
          assert slot.Some?;
          a := Admitted(slot.value);
        }
      } else {
        a := StaleHandle;
      }
    }

    /** Fills the reserved slot, counts the operation and places it in the ready order. */
    method CommitOp(slot: nat, e: Entry, position: nat) returns (token: OpToken)
      requires slot < slab.slots.Length && slab.slots[slot].payload.None? && slab.slots[slot].generation < U32_MAX
      requires Current(files.slots[..], e.fd) && position <= |ready|
      modifies slab.slots, files.slots, this`ready
      ensures View() == old(View()).(slots := Core.Fill(old(slab.slots[..]), slot, e),
                                     files := Core.OnSubmit(old(files.slots[..]), e.fd),
                                     ready := old(ready)[..position] + [slot] + old(ready)[position..])
      ensures token == TokenAt(slab.slots[..], slot)
    {
      token := slab.Fill(slot, e);
      files.OnSubmit(e.fd);
      ready := ready[..position] + [slot] + ready[position..];
    }

    /** Admission and commit in one locked region. A refusal changes nothing; an admitted operation
        gets a token no other ever had, is stored as it was asked for and joins the ready order. */
    method SubmitOp(req: Request, position: nat) returns (a: Admission, token: Option<OpToken>)
      requires Valid() && Offered(config, sys, Submit(req, position)) && !Exhausted(config, sys, Submit(req, position))
      modifies Repr
      ensures Valid() && Next(config, old(sys), Submit(req, position), sys)
      ensures a == Admit(config, old(sys).sh, req.fd) && (token.Some? <==> a.Admitted?)
      ensures token.None? ==> sys == old(sys)
      ensures token.Some? ==>
              token.value !in old(sys).hist.issued && sys.hist.issued == old(sys).hist.issued + {token.value}
      ensures token.Some? ==>
                && Contains(sys.sh.slots, token.value) && Serves(config, req, EntryAt(sys.sh.slots, token.value.slot))
                && sys.hist.requests == old(sys).hist.requests[token.value := req]
                && ready == old(ready)[..position] + [token.value.slot] + old(ready)[position..]
    {
      TokensAreFresh(config, sys, req, position);
      AdmissionIsExact(config, sys, req.fd);
      if Admit(config, sys.sh, req.fd).Admitted? { SubmitFills(config, sys, req, position); }
      a := AdmitOp(req.fd);
      token := None;
      if a.Admitted? {
        var t := CommitOp(a.slot, EntryOf(config, req), position);
        token := Some(t);
      }
      Take(Submit(req, position));
    }

    // -------------------------------------------------------------- attempts

    /** Takes the head of the ready order for execution. Its slot stays occupied. */
    method PrepareNext() returns (token: OpToken, e: Entry)
      requires Valid() && ready != []
      modifies Repr
      ensures Valid() && Next(config, old(sys), Prepare, sys)
      ensures token !in old(sys).executing && sys.executing == old(sys).executing + {token}
      ensures old(ready)[0] < |old(sys).sh.slots| && token == TokenAt(old(sys).sh.slots, old(ready)[0])
      ensures ActiveToken(sys.sh.slots, token) && e == EntryAt(sys.sh.slots, token.slot)
    {
      PrepareToken(config, sys);
      Take(Prepare);
      var slot := ready[0];
      ready := ready[1..];
      e := slab.Peek(slot);
      assert e.state.Queued?;
      assert Issuable(config, e);
      e := e.(state := Active, frame := e.frame && !config.eager);
      slab.Store(slot, e);
      token := OpToken(slot, slab.slots[slot].generation);
    }

    /** Ends an attempt: holds the slot for a partial or pool-leased vector read, else reclaims it,
        counts the completion and releases the staging slot. */
    method FinishOp(slot: nat, outcome: Outcome, ghost s: System) returns (done: Completion, retire: Option<FileId>)
      requires config.Valid() && s.sh == View() && s.arena == arena && FinishSafe(config, s, slot, outcome)
      modifies this`arena, slab`free, slab.slots, files.slots
      ensures View() == FinishAttempt(config, s.sh, slot, outcome) && arena == Finish(config, s, slot, outcome).arena
      ensures done == CompletionOf(TokenAt(s.sh.slots, slot), EntryAt(s.sh.slots, slot), outcome)
      ensures var e := EntryAt(s.sh.slots, slot);
              retire == if EndingOf(e, outcome).Freed? && Drained(OnComplete(s.sh.files, e.fd), e.fd) then Some(e.fd)
                        else None
    {
      var e := slab.Peek(slot);
      assert e.state.Active?;
      var token := OpToken(slot, slab.slots[slot].generation);
      done, retire := CompletionOf(token, e, outcome), None;
      match EndingOf(e, outcome) {
        case Partial => slab.Store(slot, HeldEntry(config, e, outcome));
        case Kept => slab.Store(slot, HeldEntry(config, e, outcome));
        case Freed =>
          token, e := slab.Reclaim(slot);
          var due := files.OnComplete(e.fd);
          if e.writeSlot.Some? {
            assert !arena[e.writeSlot.value];
            arena := arena[e.writeSlot.value := true];
          }
          if due { retire := Some(e.fd); }
      }
    }

    /** The eager backend publishes an executed operation, to the caller or into the backlog. */
    method PublishOp(token: OpToken, outcome: Outcome, toBacklog: bool)
        returns (done: Completion, retire: Option<FileId>)
      requires Valid() && Offered(config, sys, Publish(token, outcome, toBacklog))
      modifies Repr
      ensures Valid() && Next(config, old(sys), Publish(token, outcome, toBacklog), sys)
      ensures retire.Some? ==> retire.value !in old(sys).due
      ensures sys.due == if retire.Some? then old(sys).due + {retire.value} else old(sys).due
      ensures Contains(old(sys).sh.slots, token)
              && done == CompletionOf(token, EntryAt(old(sys).sh.slots, token.slot), outcome)
      ensures backlog == if toBacklog then old(backlog) + [done] else old(backlog)
    {
      hide Apply, AssertsHold, Offered, Exhausted, Reachable, Finish, FinishSafe, FinishAttempt, EndingOf, HeldEntry,
           Drained;
      ghost var s := sys.(executing := sys.executing - {token});
      PublishParts(config, sys, token, outcome, toBacklog);
      Take(Publish(token, outcome, toBacklog));
      done, retire := FinishOp(token.slot, outcome, s);
      if toBacklog {
        assert |backlog| < config.capacity;
        backlog := backlog + [done];
      }
    }

    /** Routes one completion entry by its echoed token: requeues or finishes its operation. */
    method Route(cqe: Cqe, ghost s: System) returns (done: seq<Completion>, retire: seq<FileId>)
      requires config.Valid() && s.sh == View() && s.arena == arena && Routable(config, s, cqe)
      modifies this`arena, this`ready, slab`free, slab.slots, files.slots
      ensures Routed(config, s, cqe, View(), arena, done, retire)
    {
      hide Finish, FinishAttempt, EndingOf, HeldEntry, FinishSafe;
      var slot := cqe.token.slot;
      var live := slab.Contains(cqe.token);
      assert live;
      var e := slab.Peek(slot);
      var (e', progress) := RingProgress(e, cqe.raw, config.retryBound);
      done, retire := [], [];
      match progress {
        case Resubmit =>
          slab.Store(slot, e'.(state := Queued));
          ready := ready + [slot];
        case Finished(outcome) =>
          var completion, due := FinishOp(slot, outcome, s);
          done := [completion];
          if due.Some? { retire := [due.value]; }
      }
    }

    /** Reaps the head of the completion queue. */
    method ReapOne() returns (done: seq<Completion>, retire: seq<FileId>)
      requires Valid() && !config.eager && cqes != []
      modifies Repr
      ensures Valid() && Next(config, old(sys), Reap, sys)
      ensures done == Emitted(config, old(sys)) && retire == RetireDueAt(config, old(sys))
    {
      ghost var s := sys.(cq := sys.cq[1..]);
      ReapIsSafe(config, sys);
      ReapParts(config, sys);
      hide Apply, AssertsHold, Exhausted, Routable, Routed, Emitted, RetireDueAt;
      var cqe := cqes[0];
      cqes := cqes[1..];
      done, retire := Route(cqe, s);
      RoutedIsReap(config, sys, View(), arena, done, retire);
      sys := Apply(config, sys, Reap);
    }

    /** One locked pass over the completion queue. */
    method ReapRingLocked(limit: nat, stop: bool) returns (done: seq<Completion>, retires: seq<FileId>, count: nat)
      requires Valid() && !config.eager
      modifies Repr
      ensures Valid()
      ensures Harvest(sys, done, retires, count) == Pass(config, old(sys), limit, stop)
    {
      hide Apply, AssertsHold, Offered, Exhausted, Reachable, Emitted, RetireDueAt;
      done, retires, count := [], [], 0;
      ghost var goal := Pass(config, sys, limit, stop);
      while count < limit && cqes != [] && !(stop && retires != [])
        invariant Valid() && count <= limit
        invariant goal == if stop && retires != [] then Harvest(sys, done, retires, count)
                          else Join(Harvest(sys, done, retires, count), Pass(config, sys, limit - count, stop))
        decreases limit - count
      {
        ReapIsSafe(config, sys);
        ReapPops(config, sys);
        ghost var here := Harvest(Apply(config, sys, Reap), Emitted(config, sys), RetireDueAt(config, sys), 1);
        JoinAssociates(Harvest(sys, done, retires, count), here, Pass(config, here.s, limit - count - 1, stop));
        var completed, due := ReapOne();
        done, retires, count := done + completed, retires + due, count + 1;
      }
    }

    /** Reap and finalize: a first pass up to the first file due for retirement, then the rest of
        the limit with the retire scratch in hand, then the retirements. Together they deliver what
        one pass would, within the limit, in answer to the entries taken off the queue; the scratch
        never outgrows the file table and no file it recorded is left due. */
    method ReapRing(limit: nat) returns (done: seq<Completion>, count: nat)
      requires Valid() && !config.eager && limit > 0
      modifies Repr
      ensures Valid() && sys.tearing == old(sys).tearing && sys.executing == old(sys).executing
              && backlog == old(backlog)
      ensures var h := Pass(config, old(sys), limit, false);
              && done == h.done && |done| <= count == h.count <= limit
              && sys.sh.slots == h.s.sh.slots && sys.cq == h.s.cq && sys.sh.ready == h.s.sh.ready
              && forall k | 0 <= k < |h.retires| :: Gone(sys.sh.files, h.retires[k])
      ensures count <= |old(cqes)| && Replies(config, sys.hist.requests, old(cqes)[..count], done)
      ensures cqes == old(cqes)[count..] && Handed(old(sys), sys, done) && deferred == old(deferred)
      ensures Batch(sys, done, 0) && Left(sys) + count <= Left(old(sys))
    {
      hide Apply, AssertsHold, Offered, Exhausted, Reachable, Load, Pass, Batch, Replies;
      ghost var start := sys;
      PassDelivers(config, start, limit);
      TwoPassesAreOne(config, start, limit);
      var scratch;
      done, scratch, count := ReapRingLocked(limit, true);
      if scratch != [] {
        var remaining := limit - count;
        if remaining > 0 {
          var rest, more, additional := ReapRingLocked(remaining, false);
          done, scratch, count := done + rest, scratch + more, count + additional;
        } else {
          JoinNothing(config, Harvest(sys, done, scratch, count), false);
        }
      }
      ghost var h := Pass(config, start, limit, false);
      assert Harvest(sys, done, scratch, count) == h;
      if scratch != [] {
        ScratchFits(config, sys, scratch);
        assert |scratch| <= |sys.sh.files|;
      }
      ghost var reaped := sys;
      RetireAll(scratch);
      BatchSame(reaped, sys, done, 0);
    }

    /** Retires the files of the scratch list, one after another. */
    method RetireAll(scratch: seq<FileId>)
      requires Valid()
      requires forall k | 0 <= k < |scratch| :: scratch[k] in sys.due
      requires forall j, k | 0 <= j < k < |scratch| :: scratch[j] != scratch[k]
      modifies Repr
      ensures Valid() && sys.tearing == old(sys).tearing && sys.executing == old(sys).executing
      ensures sys.sh == old(sys).sh.(files := sys.sh.files) && sys.cq == old(sys).cq && sys.held == old(sys).held
      ensures sys.hist == old(sys).hist.(retired := sys.hist.retired)
      ensures sys.due == old(sys).due - (set id | id in scratch)
      ensures forall k | 0 <= k < |scratch| :: Gone(sys.sh.files, scratch[k])
    {
      hide Apply, AssertsHold, Exhausted, Reachable;
      for i := 0 to |scratch|
        invariant Valid() && sys.tearing == old(sys).tearing && sys.executing == old(sys).executing
        invariant sys.sh == old(sys).sh.(files := sys.sh.files) && sys.cq == old(sys).cq && sys.held == old(sys).held
        invariant sys.hist == old(sys).hist.(retired := sys.hist.retired)
        invariant sys.due == old(sys).due - (set id | id in scratch[..i])
        invariant forall k | 0 <= k < i :: Gone(sys.sh.files, scratch[k])
      {
        assert scratch[..i + 1] == scratch[..i] + [scratch[i]];
        Retire(scratch[i]);
      }
      assert scratch[..|scratch|] == scratch;
    }

    // -------------------------------------------------------------- leases and retained completions

    /** Gives a held slot back and defers its completion; the deferred queue always has room. */
    method ReleaseReadLease(slot: nat)
      requires IsHeld(slab.slots[..], slot) && CanComplete(files.slots[..], EntryAt(slab.slots[..], slot).fd)
      requires !EntryAt(slab.slots[..], slot).frame && |deferred| < config.capacity
      modifies this`deferred, slab`free, slab.slots, files.slots
      ensures View() == Core.ReleaseReadLease(old(View()), slot)
      ensures |deferred| == |old(deferred)| + 1 && deferred[..|old(deferred)|] == old(deferred)
      ensures var d, e := deferred[|old(deferred)|], old(EntryAt(slab.slots[..], slot));
              && d.fd == e.fd && d.retire == Drained(files.slots[..], e.fd)
              && d.outcome == match e.state case Terminal(outcome) => outcome case _ => Err(EIO)
    {
      var token, e := slab.Reclaim(slot);
      var outcome := if e.state.Continuation? then Err(EIO) else e.state.outcome;
      assert !e.frame;
      var retire := files.OnComplete(e.fd);
      assert |deferred| < config.capacity;
      deferred := deferred + [Deferred(e.fd, retire, outcome)];
    }

    /** Dropping a read's lease gives its slot back, unless teardown already has. */
    method DropLease(token: OpToken)
      requires Valid() && token in sys.held
      modifies Repr
      ensures Valid() && Next(config, old(sys), Step.DropLease(token), sys)
    {
      hide Apply, AssertsHold, Offered, Exhausted, Reachable, IsHeld, CanComplete, Core.ReleaseReadLease;
      DropParts(config, sys, token);
      Take(Step.DropLease(token));
      var live := slab.Contains(token);
      if live { ReleaseReadLease(token.slot); }
    }

    /** Continuing a partial read queues the rest under the original token. The generation assert is
        the one that can fire: `ok` is false exactly where the code would stop at it. */
    method ContinueReadVector(token: OpToken) returns (ok: bool)
      requires Valid() && token in sys.held && sys.held[token].more
      modifies Repr
      ensures Valid() && Offered(config, old(sys), Continue(token)) && (ok <==> Contains(old(sys).sh.slots, token))
      ensures ok ==> Next(config, old(sys), Continue(token), sys)
      ensures ok ==>
                && Contains(sys.sh.slots, token) && ready == old(ready) + [token.slot]
                && var e := EntryAt(sys.sh.slots, token.slot);
                   e.state.Queued? && e.frame && e.retries == 0 && e.requestedLen == old(sys).held[token].remaining
      ensures !ok ==> sys == old(sys) && !AssertsHold(config, sys, Continue(token))
    {
      NoAssertFires(config, sys, Continue(token));
      HeldSlot(config, sys, token);
      ok := slab.Contains(token);
      if !ok { return; }
      ghost var remaining := sys.held[token].remaining;
      Take(Continue(token));
      var e := slab.Peek(token.slot);
      assert e.state.Continuation? && e.requestedLen == remaining;
      slab.Store(token.slot, e.(frame := true, retries := 0, state := Queued));
      assert |ready| < config.capacity;
      ready := ready + [token.slot];
    }

    method DrainOne() returns (done: Completion)
      requires Valid() && backlog != []
      modifies Repr
      ensures Valid() && Next(config, old(sys), Drain, sys) && done == old(backlog)[0]
    {
      Take(Drain);
      done := backlog[0];
      backlog := backlog[1..];
    }

    method FlushOne() returns (d: Deferred)
      requires Valid() && deferred != []
      modifies Repr
      ensures Valid() && Next(config, old(sys), Flush, sys) && d == old(deferred)[0]
      ensures d.retire ==> d.fd in sys.due
    {
      Take(Flush);
      d := deferred[0];
      deferred := deferred[1..];
    }

    /** Accounts for the deferred completions and retires the files they drained. */
    method FlushDeferred()
      requires Valid()
      modifies Repr
      ensures Valid() && Settled(old(sys), sys) && sys.sh.deferred == []
    {
      hide Apply, AssertsHold, Exhausted, Reachable;
      CapacityHolds(config, sys);
      for i := 0 to config.capacity
        invariant Valid() && Settled(old(sys), sys) && |deferred| <= config.capacity - i
      {
        if deferred == [] { break; }
        ghost var before := sys;
        var d := FlushOne();
        FlushSettles(config, before);
        if d.retire { Retire(d.fd); }
      }
    }

    /** Moves waiting completions into the caller's batch. */
    method DrainCompletionBacklog(cap: nat) returns (done: seq<Completion>)
      requires Valid()
      modifies Repr
      ensures Valid() && sys.sh == old(sys).sh.(backlog := sys.sh.backlog)
      ensures sys.executing == old(sys).executing && sys.cq == old(sys).cq && sys.tearing == old(sys).tearing
      ensures |done| == if cap < |old(backlog)| then cap else |old(backlog)|
      ensures done == old(backlog)[..|done|] && backlog == old(backlog)[|done|..]
      ensures Handed(old(sys), sys, done)
      ensures Orphaned(old(sys)) ==> Batch(sys, done, |done|)
    {
      hide Apply, AssertsHold, Exhausted, Reachable, Orphaned, Handed, Batch;
      ghost var orphaned := Orphaned(sys);
      BatchOfNothing(sys);
      done := [];
      while |done| < cap && backlog != []
        invariant Valid() && sys.sh == old(sys).sh.(backlog := sys.sh.backlog)
        invariant sys.executing == old(sys).executing && sys.cq == old(sys).cq && sys.tearing == old(sys).tearing
        invariant |done| <= |old(backlog)| && |done| <= cap
        invariant done == old(backlog)[..|done|] && backlog == old(backlog)[|done|..]
        invariant Handed(old(sys), sys, done)
        invariant orphaned ==> Batch(sys, done, |done|) && Orphaned(sys)
      {
        ghost var before := sys;
        assert backlog[0] == old(backlog)[|done|];
        DrainFacts(config, before);
        if orphaned { BatchDrain(config, before, done); }
        var d := DrainOne();
        HandedTwice(old(sys), before, sys, done, [d]);
        done := done + [d];
      }
    }

    // -------------------------------------------------------------- filling and polling

    /** The mock ring answers at once, with any result a kernel could give for the request. */
    method Answer(e: Entry) returns (raw: int)
      ensures RawFits(e, raw)
    {
      assert RawFits(e, 0);
      raw :| RawFits(e, raw);
    }

    /** Turns ready operations into requests the mock ring answers into its completion queue. */
    method FillRing(cap: nat) returns (filled: nat)
      requires Valid() && !config.eager
      modifies Repr
      ensures Valid() && sys.tearing == old(sys).tearing && sys.executing == old(sys).executing
              && backlog == old(backlog)
      ensures filled == if cap < |old(ready)| then cap else |old(ready)|
      ensures ready == old(ready)[filled..] && |cqes| == |old(cqes)| + filled && cqes[..|old(cqes)|] == old(cqes)
      ensures forall k | 0 <= k < filled :: Names(old(sys).sh.slots, old(ready)[k], cqes[|old(cqes)| + k].token)
      ensures Handed(old(sys), sys, []) && SameFills(old(sys).sh.slots, sys.sh.slots) && deferred == old(deferred)
      ensures Work(sys.sh.slots, config.retryBound) == Work(old(sys).sh.slots, config.retryBound)
              && Left(sys) == Left(old(sys))
    {
      assert sys.hist.delivered + [] == sys.hist.delivered;
      hide Apply, AssertsHold, Exhausted, Reachable, Work, Load, Names, SameFills;
      SameFillsRefl(sys.sh.slots);
      filled := 0;
      while filled < cap && ready != []
        invariant Valid() && sys.tearing == old(sys).tearing && sys.executing == old(sys).executing
                  && backlog == old(backlog)
        invariant filled <= cap && filled <= |old(ready)| && ready == old(ready)[filled..]
        invariant |cqes| == |old(cqes)| + filled && cqes[..|old(cqes)|] == old(cqes)
        invariant forall k | 0 <= k < filled :: Names(old(sys).sh.slots, old(ready)[k], cqes[|old(cqes)| + k].token)
        invariant Handed(old(sys), sys, []) && SameFills(old(sys).sh.slots, sys.sh.slots) && deferred == old(deferred)
        invariant Work(sys.sh.slots, config.retryBound) == Work(old(sys).sh.slots, config.retryBound)
                  && Left(sys) == Left(old(sys))
        decreases |ready|
      {
        ghost var before := sys;
        FillOne();
        SameNames(old(sys).sh.slots, before.sh.slots, sys.sh.slots, old(ready)[filled], cqes[|cqes| - 1].token);
        filled := filled + 1;
      }
    }

    /** One request of a fill: prepared under the lock, then answered. */
    method FillOne()
      requires Valid() && !config.eager && ready != []
      modifies Repr
      ensures Valid() && sys.tearing == old(sys).tearing && sys.executing == old(sys).executing
              && backlog == old(backlog)
      ensures ready == old(ready)[1..] && |cqes| == |old(cqes)| + 1 && cqes[..|old(cqes)|] == old(cqes)
      ensures Names(old(sys).sh.slots, old(ready)[0], cqes[|old(cqes)|].token)
      ensures Handed(old(sys), sys, []) && SameFills(old(sys).sh.slots, sys.sh.slots) && deferred == old(deferred)
      ensures Work(sys.sh.slots, config.retryBound) == Work(old(sys).sh.slots, config.retryBound)
              && Left(sys) == Left(old(sys))
    {
      ghost var before := sys;
      PrepareFacts(config, sys);
      hide Apply, AssertsHold, Exhausted, Reachable, Work, Load, Next, ActiveToken;
      var token, e := PrepareNext();
      assert Next(config, before, Prepare, sys);
      var raw := Answer(e);
      PostRequest(token, raw);
    }

    method PostRequest(token: OpToken, raw: int)
      requires Valid() && Offered(config, sys, Post(token, raw, |cqes|))
      modifies this`cqes, this`sys
      ensures Valid() && sys == old(sys).(executing := old(sys).executing - {token}, cq := sys.cq)
      ensures cqes == old(cqes) + [Cqe(token, raw)]
    {
      Take(Post(token, raw, |cqes|));
      cqes := cqes + [Cqe(token, raw)];
      assert old(cqes)[..|old(cqes)|] == old(cqes);
    }

    /** How every poll begins: deferred completions are settled, and waiting ones fill the batch. */
    method BeginPoll(cap: nat) returns (done: seq<Completion>)
      requires Valid()
      modifies Repr
      ensures Valid() && sys.executing == old(sys).executing && sys.tearing == old(sys).tearing
      ensures sys.sh.slots == old(sys).sh.slots && ready == old(ready) && cqes == old(cqes) && deferred == []
      ensures Handed(old(sys), sys, done) && |done| == Least(cap, |old(backlog)|)
      ensures done == old(backlog)[..|done|] && backlog == old(backlog)[|done|..]
      ensures Orphaned(old(sys)) ==> Batch(sys, done, |done|)
    {
      hide Apply, AssertsHold, Exhausted, Offered, Reachable, Batch, Handed;
      FlushDeferred();
      ghost var flushed := sys;
      done := DrainCompletionBacklog(cap);
      HandedTwice(old(sys), flushed, sys, [], done);
      assert [] + done == done;
    }

    /** Fill and reap: as many ready operations as fit are turned into answers at the end of the queue,
        and as many entries as fit are reaped from its head, in answer to their callers. */
    method FillAndReap(room: nat) returns (done: seq<Completion>, reaped: nat, ghost queue: seq<Cqe>)
      requires Valid() && !config.eager && room > 0
      modifies Repr
      ensures Valid() && sys.executing == old(sys).executing && sys.tearing == old(sys).tearing
      ensures backlog == old(backlog) && deferred == old(deferred) && Handed(old(sys), sys, done)
      ensures Extended(old(sys).sh.slots, old(ready), old(cqes), room, queue)
      ensures reaped == Least(room, |queue|) && cqes == queue[reaped..]
      ensures |done| <= reaped && Replies(config, sys.hist.requests, queue[..reaped], done)
      ensures Work(sys.sh.slots, config.retryBound) + reaped <= Work(old(sys).sh.slots, config.retryBound)
      ensures Left(sys) + reaped <= Left(old(sys)) && Batch(sys, done, 0)
    {
      hide Apply, AssertsHold, Exhausted, Offered, Reachable, Work, Pass, Load, Batch, Replies, Names, Handed,
           SameFills;
      var filled := FillRing(room);
      ghost var prepared := sys;
      queue := cqes;
      PassFacts(config, sys, room, false);
      PassWork(config, sys, room, false);
      done, reaped := ReapRing(room);
      HandedTwice(old(sys), prepared, sys, [], done);
      assert [] + done == done;
    }

    /** One ring poll over the mock: deferred completions, the backlog, then fill and reap with what
        is left of the batch. The caller gets exactly what was delivered: first what left the backlog,
        then in order the answers to the entries reaped, from a `queue` the fill extended by answers to
        the head of the ready order. Every entry reaped pays for itself in remaining work. */
    method PollRing(cap: nat) returns (done: seq<Completion>, reaped: nat, ghost queue: seq<Cqe>)
      requires Valid() && !config.eager && cap > 0
      modifies Repr
      ensures Valid() && sys.executing == old(sys).executing && sys.tearing == old(sys).tearing
      ensures |done| <= cap && Handed(old(sys), sys, done) && sys.sh.deferred == []
      ensures var drained := Least(cap, |old(backlog)|);
              && drained <= |done| && done[..drained] == old(backlog)[..drained] && backlog == old(backlog)[drained..]
              && Extended(old(sys).sh.slots, old(ready), old(cqes), cap - drained, queue)
              && reaped == Least(cap - drained, |queue|) && cqes == queue[reaped..]
              && Replies(config, sys.hist.requests, queue[..reaped], done[drained..])
      ensures Work(sys.sh.slots, config.retryBound) + reaped <= Work(old(sys).sh.slots, config.retryBound)
      ensures Left(sys) + reaped <= Left(old(sys)) && (old(backlog) == [] ==> Batch(sys, done, 0))
    {
      hide Apply, AssertsHold, Exhausted, Offered, Reachable, Work, Load, Batch, Replies, Extended, Handed;
      done := BeginPoll(cap);
      reaped, queue := 0, cqes;
      if |done| < cap {
        ghost var drained := sys;
        var more;
        more, reaped, queue := FillAndReap(cap - |done|);
        HandedTwice(old(sys), drained, sys, done, more);
        assert done == [] ==> done + more == more;
        assert (done + more)[|done|..] == more;
        done := done + more;
      } else {
        RepliesNothing(config, sys.hist.requests);
        ExtendedByNothing(sys.sh.slots, ready, cqes);
        assert queue[..0] == [] && done[|done|..] == [];
      }
    }

    /** Polling until nothing is ready or posted terminates, whatever the kernel answers, and leaves
        in flight only reads whose leases callers hold. */
    method DrainRing(cap: nat)
      requires Valid() && !config.eager && cap > 0 && sys.executing == {}
      modifies Repr
      ensures Valid() && ready == [] && cqes == []
      ensures forall i: nat | Occupied(sys.sh.slots, i) :: IsHeld(sys.sh.slots, i)
    {
      hide Apply, AssertsHold, Exhausted, Offered, Reachable, Work;
      while ready != [] || cqes != []
        invariant Valid() && sys.executing == {}
        decreases Work(sys.sh.slots, config.retryBound), |backlog|
      {
        var done, reaped, queue := PollRing(cap);
      }
      forall i: nat | Occupied(sys.sh.slots, i) ensures IsHeld(sys.sh.slots, i) { IdleMeansHeld(config, sys, i); }
    }

    // -------------------------------------------------------------- the eager backend

    /** Executing outside the lock: the retry loop over a mock disk with any faults whose short counts
        fit, and any contents of the staging slot. It is a run of the operation given, and a write that
        succeeds has written all of it. */
    method Execute(ghost token: OpToken, e: Entry) returns (outcome: Outcome, ghost r: Carried)
      requires e.kind.Write? ==> e.destinationOffset == 0
      requires e.kind.Fsync? ==> e.requestedLen == 0
      ensures r.token == token && r.e == e && r.outcome == outcome && RanAs(config, r)
      ensures OutcomeFits(e, outcome)
      ensures e.kind.Write? && outcome.Ok? ==> outcome.bytes == e.requestedLen
    {
      assert |MockDisk.Zeros(e.requestedLen)| == e.requestedLen;
      var buf: seq<MockDisk.Byte> :| |buf| == e.requestedLen;
      var context := MockDisk.Context(e.fd, e.fileOffset, e.destinationOffset, e.requestedLen, buf);
      ghost var e0 := MockDisk.EntryFor(e.kind, context, 0);
      assert Retry.FaultsFit(e0, config.retryBound, []);
      var faults: seq<Retry.Injected> :|
        Retry.FaultsFit(MockDisk.EntryFor(e.kind, context, 0), config.retryBound, faults);
      var executor := new MockDisk.MockExecutor(faults);
      outcome := MockDisk.Execute(executor, e.kind, context, config.retryBound);
      r := Carried(token, e, faults, executor.asked, outcome);
      assert e0 == Begun(e) && [] + executor.asked == executor.asked;
    }

    /** Takes the head of the ready order and executes it outside the lock. */
    method ExecuteHead() returns (token: OpToken, outcome: Outcome, ghost r: Carried)
      requires Valid() && config.eager && ready != []
      modifies Repr
      ensures Valid() && sys.tearing == old(sys).tearing && sys.seekers == old(sys).seekers && arena == old(arena)
      ensures token !in old(sys).executing && sys.executing == old(sys).executing + {token}
      ensures backlog == old(backlog) && deferred == old(deferred) && ready == old(ready)[1..]
      ensures Left(sys) == Left(old(sys)) && Handed(old(sys), sys, [])
      ensures Names(old(sys).sh.slots, old(ready)[0], token) && SameFills(old(sys).sh.slots, sys.sh.slots)
      ensures Contains(sys.sh.slots, token) && OutcomeFits(EntryAt(sys.sh.slots, token.slot), outcome)
      ensures Concerns(config, sys.hist.requests, r, CompletionOf(token, EntryAt(sys.sh.slots, token.slot), outcome))
      ensures forall batch, stale | Batch(old(sys), batch, stale) :: Batch(sys, batch, stale)
    {
      ghost var before := sys;
      PrepareEager(config, sys);
      hide Apply, AssertsHold, Exhausted, Reachable, Load, Next, Batch, SameFills, Handed, RanAs, Concerns,
           CompletionOf;
      var e;
      token, e := PrepareNext();
      assert Next(config, before, Prepare, sys);
      PreparedShape(config, sys, token);
      outcome, r := Execute(token, e);
      CarriedConcerns(config, sys, r);
    }

    /** Prepare, execute and publish the head of the ready order: its caller hears of just that. */
    method ExecuteOne(ghost batch: seq<Completion>, ghost stale: nat) returns (done: Completion, ghost r: Carried)
      requires Valid() && config.eager && ready != [] && stale <= |batch|
      modifies Repr
      ensures Valid() && sys.executing == old(sys).executing && sys.tearing == old(sys).tearing
              && backlog == old(backlog)
      ensures ready == old(ready)[1..] && Left(sys) < Left(old(sys))
      ensures Names(old(sys).sh.slots, old(ready)[0], done.token) && SameFills(old(sys).sh.slots, sys.sh.slots)
      ensures Concerns(config, sys.hist.requests, r, done) && Handed(old(sys), sys, [done]) && deferred == old(deferred)
      ensures Batch(old(sys), batch, stale) ==> Batch(sys, batch + [done], stale)
    {
      hide Apply, AssertsHold, Exhausted, Reachable, Load, Batch, SameFills, Handed, Concerns, OutcomeFits;
      var token, outcome;
      token, outcome, r := ExecuteHead();
      ghost var prepared := sys;
      done := PublishOne(token, outcome, batch, stale);
      SameNames(old(sys).sh.slots, prepared.sh.slots, sys.sh.slots, token.slot, token);
      HandedKeeps(prepared, sys, [done]);
      HandedTwice(old(sys), prepared, sys, [], [done]);
      assert [] + [done] == [done];
    }

    /** Publishes an executed operation and retires the file it drained, if any. */
    method PublishOne(token: OpToken, outcome: Outcome, ghost batch: seq<Completion>, ghost stale: nat)
      returns (done: Completion)
      requires stale <= |batch| && Valid() && Offered(config, sys, Publish(token, outcome, false))
      modifies Repr
      ensures Valid() && sys.executing == old(sys).executing - {token} && sys.tearing == old(sys).tearing
      ensures backlog == old(backlog) && ready == old(ready) && Left(sys) < Left(old(sys)) && deferred == old(deferred)
      ensures Contains(old(sys).sh.slots, token)
      ensures done == CompletionOf(token, EntryAt(old(sys).sh.slots, token.slot), outcome)
      ensures SameFills(old(sys).sh.slots, sys.sh.slots) && Handed(old(sys), sys, [done])
      ensures Batch(old(sys), batch, stale) ==> Batch(sys, batch + [done], stale)
    {
      ghost var before := sys;
      PublishEager(config, sys, token, outcome, batch, stale);
      hide Apply, AssertsHold, Exhausted, Reachable, Load, Next, ActiveToken, Batch, CompletionOf, EntryAt;
      var retire;
      done, retire := PublishOp(token, outcome, false);
      assert Next(config, before, Publish(token, outcome, false), sys);
      ghost var published := sys;
      if retire.Some? {
        Retire(retire.value);
        BatchSame(published, sys, batch + [done], stale);
      }
    }

    // -------------------------------------------------------------- staging slots

    /** Takes the first free staging slot. Each slot is looked at on its own, so other callers may act
        in between; a caller that finds none has earned a pump. */
    method AllocWriteSlot() returns (slot: Option<nat>)
      requires Valid()
      modifies this`arena, this`sys
      ensures Valid() && sys == old(sys).(arena := sys.arena, owned := sys.owned, seekers := sys.seekers)
      ensures slot.Some? ==>
                && slot.value < |old(arena)| && old(arena)[slot.value]
                && (forall w | 0 <= w < slot.value :: !old(arena)[w])
                && arena == old(arena)[slot.value := false] && sys.owned == old(sys).owned + {slot.value}
                && sys.seekers == old(sys).seekers
      ensures slot.None? ==>
                && arena == old(arena) && (forall w | 0 <= w < |arena| :: !arena[w]) && sys.owned == old(sys).owned
                && sys.seekers == old(sys).seekers + multiset{|arena|}
    {
      hide Apply, AssertsHold, Exhausted, Offered, Reachable, Seeking;
      BeginSeek();
      for index := 0 to |arena|
        invariant Valid() && arena == old(arena) && Seeking(old(sys), sys, index)
        invariant forall w | 0 <= w < index :: !arena[w]
      {
        var taken := TrySlot(index, old(sys));
        if taken { return Some(index); }
      }
      SeekEnds(old(sys), sys, |arena|);
      slot := None;
    }

    ghost method BeginSeek()
      requires Valid()
      modifies this`sys
      ensures Valid() && Seeking(old(sys), sys, 0)
    {
      Take(Seek);
    }

    /** One atomic exchange on one staging slot. */
    method TrySlot(index: nat, ghost start: System) returns (taken: bool)
      requires Valid() && index < |arena| && Seeking(start, sys, index)
      modifies this`arena, this`sys
      ensures Valid() && taken == old(arena)[index]
      ensures arena == if taken then old(arena)[index := false] else old(arena)
      ensures if taken then sys == start.(arena := arena, owned := start.owned + {index})
              else Seeking(start, sys, index + 1)
    {
      SeekSteps(config, start, sys, index);
      hide Apply, Offered, Exhausted, AssertsHold, Reachable, Seeking;
      taken := arena[index];
      if taken {
        Take(AllocWrite(index));
        arena := arena[index := false];
      } else {
        Take(Skip(index));
      }
    }

    /** A staging slot dropped without being submitted is released, exactly once. */
    method DropWriteSlot(slot: nat)
      requires Valid() && slot in sys.owned
      modifies this`arena, this`sys
      ensures Valid() && Next(config, old(sys), DropWrite(slot), sys)
    {
      Take(DropWrite(slot));
      assert slot < |arena| && !arena[slot];
      arena := arena[slot := true];
    }

    /** A caller without a staging slot runs the head of the ready order; what its caller is to hear of
        that joins the backlog. */
    method PumpOneToBacklog() returns (pumped: bool, ghost r: Carried)
      requires Valid() && config.eager && !sys.tearing && |arena| in sys.seekers
      modifies Repr
      ensures Valid() && !sys.tearing && sys.executing == old(sys).executing && (pumped <==> old(ready) != [])
      ensures if pumped then
                && ready == old(ready)[1..] && Left(sys) < Left(old(sys)) && Handed(old(sys), sys, [])
                && |backlog| == |old(backlog)| + 1 && backlog[..|old(backlog)|] == old(backlog)
                && var done := backlog[|old(backlog)|];
                   Names(old(sys).sh.slots, old(ready)[0], done.token) && Concerns(config, sys.hist.requests, r, done)
              else sys == old(sys)
    {
      hide Apply, AssertsHold, Exhausted, Reachable, Load, Batch, SameFills, Handed, Concerns, OutcomeFits;
      pumped := ready != [];
      r := *;
      if pumped {
        var token, outcome;
        token, outcome, r := ExecuteHead();
        ghost var prepared := sys;
        PublishPump(token, outcome);
        HandedTwice(old(sys), prepared, sys, [], []);
        HandedKeeps(prepared, sys, []);
      }
    }

    /** Publishes a pumped operation into the backlog and retires the file it drained, if any. */
    method PublishPump(token: OpToken, outcome: Outcome)
      requires Valid() && Offered(config, sys, Publish(token, outcome, true))
      modifies Repr
      ensures Valid() && sys.tearing == old(sys).tearing && sys.executing == old(sys).executing - {token}
      ensures ready == old(ready) && Left(sys) < Left(old(sys))
      ensures Contains(old(sys).sh.slots, token)
      ensures backlog == old(backlog) + [CompletionOf(token, EntryAt(old(sys).sh.slots, token.slot), outcome)]
      ensures Handed(old(sys), sys, [])
    {
      ghost var before := sys;
      PumpFacts(config, sys, token, outcome);
      hide Apply, AssertsHold, Exhausted, Reachable, Load, Next, Offered;
      var done, retire := PublishOp(token, outcome, true);
      assert Next(config, before, Publish(token, outcome, true), sys);
      if retire.Some? { Retire(retire.value); }
    }

    /** Waits for a staging slot, pumping as long as none is free. The backlog bound holds throughout.
        Unless its time runs out it comes back without a slot only when none is free and no operation
        is left that could release one. */
    method AllocWriteSlotWait() returns (slot: Option<nat>, expired: bool)
      requires Valid() && config.eager && !sys.tearing
      modifies Repr
      ensures Valid() && sys.executing == old(sys).executing
      ensures slot.Some? ==> slot.value < |arena| && !arena[slot.value] && slot.value in sys.owned
      ensures slot.None? && !expired ==> ready == [] && forall w | 0 <= w < |arena| :: !arena[w]
      ensures Handed(old(sys), sys, []) && old(backlog) <= backlog
    {
      hide Apply, AssertsHold, Exhausted, Offered, Reachable, Load, Handed, Concerns, Names;
      BatchOfNothing(sys);
      expired := false;
      while true
        invariant Valid() && !sys.tearing && sys.executing == old(sys).executing && !expired
        invariant Handed(old(sys), sys, []) && old(backlog) <= backlog
        decreases Left(sys)
      {
        ghost var before := sys;
        slot := AllocWriteSlot();
        HandedSame(old(sys), before, sys, []);
        if slot.Some? { return; }
        expired := *;
        if expired { return; }
        ghost var sought := sys;
        var pumped, r := PumpOneToBacklog();
        if pumped { HandedTwice(old(sys), sought, sys, [], []); }
        if !pumped { return; }
      }
    }

    /** One eager poll: deferred completions, the backlog, then the ready order, up to the batch. The
        caller gets exactly what was delivered: first what left the backlog, then for the head of the
        ready order, one operation after another, how its execution came out. A batch the backlog fills
        executes nothing. */
    method PollEager(cap: nat) returns (done: seq<Completion>, ghost log: seq<Carried>)
      requires Valid() && config.eager && cap > 0
      modifies Repr
      ensures Valid() && sys.executing == old(sys).executing && sys.tearing == old(sys).tearing
      ensures |done| <= cap && (done == [] ==> old(ready) == [] && old(backlog) == [])
      ensures |backlog| == if cap < |old(backlog)| then |old(backlog)| - cap else 0
      ensures var drained := |old(backlog)| - |backlog|;
              && drained <= |done| && done[..drained] == old(backlog)[..drained] && backlog == old(backlog)[drained..]
              && (backlog != [] ==> ready == old(ready))
              && (Orphaned(old(sys)) ==> Batch(sys, done, drained))
      ensures Handed(old(sys), sys, done) && sys.sh.deferred == []
      ensures |log| <= |old(ready)| && ready == old(ready)[|log|..] && (|log| == |old(ready)| || |done| == cap)
      ensures var drained := |old(backlog)| - |backlog|;
              |done| == drained + |log| && Logged(config, sys.hist.requests, old(sys).sh.slots, old(ready), log,
                                                  done[drained..])
      ensures Left(sys) + |backlog| + |done| <= Left(old(sys)) + |old(backlog)|
    {
      hide Apply, AssertsHold, Exhausted, Offered, Reachable, Load, Batch, Resumable, Contains, Names, Concerns, Handed,
           SameFills, Logged, Orphaned;
      SameFillsRefl(sys.sh.slots);
      done := BeginPoll(cap);
      log := [];
      ghost var drained, rest, batched := |done|, backlog, Batch(sys, done, |done|);
      assert done[drained..] == [];
      LogOfNothing(config, sys.hist.requests, sys.sh.slots, ready);
      while |done| < cap && ready != []
        invariant Valid() && sys.executing == old(sys).executing && sys.tearing == old(sys).tearing
        invariant backlog == rest && drained <= |done| <= cap && done[..drained] == old(backlog)[..drained]
        invariant |done| == drained + |log| && |log| <= |old(ready)| && ready == old(ready)[|log|..]
        invariant Handed(old(sys), sys, done) && deferred == [] && SameFills(old(sys).sh.slots, sys.sh.slots)
        invariant Logged(config, sys.hist.requests, old(sys).sh.slots, old(ready), log, done[drained..])
        invariant Left(sys) + |done| <= Left(old(sys)) + drained
        invariant batched ==> Batch(sys, done, drained)
        decreases |ready|
      {
        ghost var before := sys;
        var d, r := ExecuteOne(done, drained);
        HandedKeeps(before, sys, [d]);
        HandedTwice(old(sys), before, sys, done, [d]);
        SameNames(old(sys).sh.slots, before.sh.slots, sys.sh.slots, old(ready)[|log|], d.token);
        LogGrows(config, sys.hist.requests, old(sys).sh.slots, old(ready), log, done[drained..], r, d);
        assert (done + [d])[drained..] == done[drained..] + [d];
        done, log := done + [d], log + [r];
      }
    }

    /** Continues the resumable reads of a batch, last completion first, and drops the other leases.
        The generation assert fires exactly if one of them was abandoned. */
    method ContinueVectors(done: seq<Completion>, ghost stale: nat) returns (fired: bool)
      requires Valid() && Batch(sys, done, stale) && stale <= |done|
      modifies Repr
      ensures Valid() && sys.executing == old(sys).executing && sys.tearing == old(sys).tearing
              && backlog == old(backlog)
      ensures Left(sys) <= Left(old(sys)) && |ready| >= |old(ready)|
      ensures fired <==> AwaitsPartial(done[..stale])
      ensures fired ==> StoppedAtAssert(config, sys)
    {
      hide Apply, AssertsHold, Exhausted, Offered, Reachable, Load, Batch, Resumable, Next, StoppedAtAssert;
      var i := |done|;
      fired := false;
      assert done[..i] == done;
      while i > 0
        invariant 0 <= i <= |done| && Valid() && Batch(sys, done[..i], stale)
        invariant sys.executing == old(sys).executing && sys.tearing == old(sys).tearing && backlog == old(backlog)
        invariant Left(sys) <= Left(old(sys)) && |ready| >= |old(ready)|
        invariant forall k | i <= k < stale :: !Resumable(done[k])
      {
        i := i - 1;
        assert done[..i + 1][..i] == done[..i];
        fired := SettleCompletion(done[..i + 1], stale);
        if fired {
          assert done[..stale][i] == done[i];
          return;
        }
      }
    }

    /** The last completion of a batch. */
    method SettleCompletion(done: seq<Completion>, ghost stale: nat) returns (fired: bool)
      requires Valid() && done != [] && Batch(sys, done, stale)
      modifies Repr
      ensures Valid() && sys.executing == old(sys).executing && sys.tearing == old(sys).tearing
              && backlog == old(backlog)
      ensures Left(sys) <= Left(old(sys)) && |ready| >= |old(ready)|
      ensures fired <==> Resumable(done[|done| - 1]) && |done| <= stale
      ensures if fired then StoppedAtAssert(config, sys) else Batch(sys, done[..|done| - 1], stale)
    {
      ghost var before := sys;
      var last := done[|done| - 1];
      fired := false;
      if Resumable(last) {
        ContinueLast(config, sys, done, stale);
        LastIsHeld(sys, done, stale);
        hide Apply, AssertsHold, Exhausted, Reachable, Load, Batch, Resumable, Next, Contains;
        var ok := ContinueReadVector(last.token);
        fired := !ok;
        if ok { assert Next(config, before, Continue(last.token), sys); }
      } else if last.lease.Some? {
        DropLast(config, sys, done, stale);
        LastIsHeld(sys, done, stale);
        hide Apply, AssertsHold, Exhausted, Reachable, Load, Batch, Resumable, Next, Contains;
        DropLease(last.token);
        assert Next(config, before, Step.DropLease(last.token), sys);
      } else {
        ShorterBatch(sys, done, stale);
      }
    }

    method AbandonOne(slot: nat)
      requires Valid() && sys.tearing && IsHeld(slab.slots[..], slot)
      modifies Repr
      ensures Valid() && Next(config, old(sys), Abandon(slot), sys)
    {
      HeldHasNoStaging(config, sys, slot);
      Take(Abandon(slot));
      ReleaseReadLease(slot);
    }

    /** Gives up every held read; afterwards no slot is held. */
    method AbandonHeld()
      requires Valid() && sys.tearing
      modifies Repr
      ensures Valid() && sys.tearing && sys.executing == old(sys).executing
      ensures backlog == old(backlog) && ready == old(ready) && Left(sys) <= Left(old(sys))
      ensures forall i: nat :: !IsHeld(sys.sh.slots, i)
    {
      hide Apply, AssertsHold, Exhausted, Reachable, Load, Next, IsHeld;
      for slot := 0 to slab.slots.Length
        invariant Valid() && sys.tearing && sys.executing == old(sys).executing
        invariant backlog == old(backlog) && ready == old(ready) && Left(sys) <= Left(old(sys))
        invariant forall i: nat | IsHeld(sys.sh.slots, i) :: slot <= i
      {
        if slab.slots[slot].payload.Some? && slab.slots[slot].payload.value.state.Held() {
          ghost var before := sys;
          HeldAt(sys.sh.slots, slot);
          AbandonFacts(config, sys, slot);
          AbandonOne(slot);
          assert Next(config, before, Abandon(slot), sys);
        } else {
          HeldAt(sys.sh.slots, slot);
        }
      }
      forall i: nat ensures !IsHeld(sys.sh.slots, i) { HeldAt(sys.sh.slots, i); }
      FlushDeferred();
    }

    /** `Drop` has the driver to itself from here on. */
    method BeginTeardown()
      requires Valid()
      modifies this`sys
      ensures Valid() && sys == old(sys).(tearing := true)
    {
      Take(Step.Teardown);
    }

    /** A poll of the eager teardown loop, and what is done with its batch: the assert fires exactly if
        the batch takes a partial read out of the backlog. */
    method DrainBatch(cap: nat) returns (progress: nat, fired: bool)
      requires Valid() && config.eager && sys.tearing && cap > 0 && Orphaned(sys)
      modifies Repr
      ensures Valid() && sys.tearing && sys.executing == old(sys).executing
      ensures backlog == old(backlog)[Taken(cap, old(backlog))..]
      ensures fired <==> AwaitsPartial(old(backlog)[..Taken(cap, old(backlog))])
      ensures fired ==> StoppedAtAssert(config, sys)
      ensures (backlog != [] ==> |ready| >= |old(ready)|) && (old(ready) != [] ==> progress > 0)
      ensures Left(sys) + |backlog| + progress <= Left(old(sys)) + |old(backlog)|
    {
      hide Apply, AssertsHold, Exhausted, Offered, Reachable, Load, Batch, AwaitsPartial, Orphaned, StoppedAtAssert;
      var done, log := PollEager(cap);
      progress := |done|;
      ghost var stale := |old(backlog)| - |backlog|;
      assert stale == Taken(cap, old(backlog));
      fired := ContinueVectors(done, stale);
    }

    /** One pass of that loop. */
    method QuiescePass(cap: nat) returns (progress: nat, fired: bool)
      requires Valid() && config.eager && sys.tearing && sys.executing == {} && cap > 0
      requires forall i: nat :: !IsHeld(sys.sh.slots, i)
      modifies Repr
      ensures Valid() && sys.tearing && sys.executing == {}
      ensures fired <==> AwaitsPartial(old(backlog)[..Taken(cap, old(backlog))])
      ensures fired ==> StoppedAtAssert(config, sys)
      ensures !fired ==>
                && backlog == old(backlog)[Taken(cap, old(backlog))..] && (forall i: nat :: !IsHeld(sys.sh.slots, i))
                && (backlog != [] ==> |ready| >= |old(ready)|) && (old(ready) != [] ==> progress > 0)
                && Left(sys) + |backlog| + progress <= Left(old(sys)) + |old(backlog)|
    {
      hide Apply, AssertsHold, Exhausted, Offered, Reachable, Load, AwaitsPartial, IsHeld, Orphaned, StoppedAtAssert;
      NoneHeldMeansOrphaned(config, sys);
      progress, fired := DrainBatch(cap);
      if !fired { AbandonHeld(); }
    }

    /** Teardown of an eager driver nobody else uses. The generation assert fires if and only if an
        operation is ready and a partial read waits in the backlog; otherwise teardown ends with
        nothing in flight, and every pass of its loop makes progress. */
    method Quiesce(cap: nat) returns (fired: bool)
      requires Valid() && config.eager && sys.executing == {} && cap > 0
      modifies Repr
      ensures Valid()
      ensures fired <==> old(ready) != [] && AwaitsPartial(old(backlog))
      ensures if fired then StoppedAtAssert(config, sys) else TotalInflight(sys.sh.files) == 0
    {
      hide Apply, AssertsHold, Exhausted, Offered, Reachable, Load, IsHeld, StoppedAtAssert, AwaitsPartial;
      fired := false;
      BeginTeardown();
      AbandonHeld();
      InflightIffReady(config, sys);
      NothingAwaits(backlog);
      var inflight := files.TotalInflight();
      var idle := 0;
      while inflight > 0
        invariant Valid() && sys.tearing && sys.executing == {} && inflight == TotalInflight(sys.sh.files) && idle == 0
        invariant AwaitsPartial(old(backlog)) <==> AwaitsPartial(backlog)
        invariant backlog == [] ==> !AwaitsPartial(backlog)
        invariant inflight > 0 ==> old(ready) != []
        invariant inflight == 0 ==> old(ready) == [] || backlog == []
        invariant forall i: nat :: !IsHeld(sys.sh.slots, i)
        decreases Left(sys) + |backlog|
      {
        InflightIffReady(config, sys);
        PartialSplits(backlog, Taken(cap, backlog));
        var progress;
        progress, fired := QuiescePass(cap);
        if fired { return; }
        NothingAwaits(backlog);
        InflightIffReady(config, sys);
        idle := if progress > 0 then 0 else idle + 1;
        assert idle < QUIESCE_IDLE_MAX;
        inflight := files.TotalInflight();
      }
    }

    /** Teardown of a ring driver over the mock: the assert never fires, because a ring never uses the
        backlog; and unless its time runs out it ends, with nothing in flight. */
    method QuiesceRing(cap: nat) returns (drained: bool)
      requires Valid() && !config.eager && sys.executing == {} && cap > 0
      modifies Repr
      ensures Valid() && (drained <==> TotalInflight(sys.sh.files) == 0)
    {
      hide Apply, AssertsHold, Exhausted, Offered, Reachable, Load, Work, Batch, Resumable, IsHeld, StoppedAtAssert;
      BeginTeardown();
      AbandonHeld();
      var inflight := files.TotalInflight();
      while inflight > 0
        invariant Valid() && sys.tearing && sys.executing == {} && inflight == TotalInflight(sys.sh.files)
        invariant forall i: nat :: !IsHeld(sys.sh.slots, i)
        decreases Left(sys)
      {
        var expired: bool := *;
        if expired { return false; }
        BacklogStaysEmpty(config, sys);
        if ready == [] && cqes == [] { IdleMeansDrained(config, sys); }
        var done, reaped, queue := PollRing(cap);
        var fired := ContinueVectors(done, 0);
        assert !fired;
        AbandonHeld();
        inflight := files.TotalInflight();
      }
      drained := true;
    }
  }

  /** A resumable read is about to be continued that the generation assert refuses. */
  ghost predicate StoppedAtAssert(c: Config, s: System) {
    exists token :: Offered(c, s, Continue(token)) && !AssertsHold(c, s, Continue(token))
  }

  /** How many waiting completions a batch takes. */
  function Taken(cap: nat, backlog: seq<Completion>): (n: nat)
    ensures n <= |backlog|
  {
    if cap < |backlog| then cap else |backlog|
  }

  /** A partial read waits among these completions. */
  predicate AwaitsPartial(backlog: seq<Completion>) {
    exists k | 0 <= k < |backlog| :: Resumable(backlog[k])
  }

  lemma NothingAwaits(backlog: seq<Completion>)
    ensures backlog == [] ==> !AwaitsPartial(backlog)
  {
  }

  lemma PartialSplits(backlog: seq<Completion>, n: nat)
    requires n <= |backlog|
    ensures AwaitsPartial(backlog) <==> AwaitsPartial(backlog[..n]) || AwaitsPartial(backlog[n..])
  {
    if k :| 0 <= k < |backlog| && Resumable(backlog[k]) {
      if k < n { assert Resumable(backlog[..n][k]); } else { assert Resumable(backlog[n..][k - n]); }
    }
  }

  lemma LastIsHeld(s: System, done: seq<Completion>, stale: nat)
    requires done != [] && Batch(s, done, stale) && done[|done| - 1].lease.Some?
    ensures var last := done[|done| - 1];
            last.token in s.held && (Resumable(last) ==> s.held[last.token].more)
  {
    assert Usable(s, done[|done| - 1]);
  }

  lemma ShorterBatch(s: System, done: seq<Completion>, stale: nat)
    requires done != [] && Batch(s, done, stale)
    ensures Batch(s, done[..|done| - 1], stale)
  {
  }

  /** In an eager driver that nobody executes for, with no read held, something is in flight exactly
      when something is ready. */
  lemma InflightIffReady(c: Config, s: System)
    requires Reachable(c, s) && c.eager && s.executing == {} && forall i: nat :: !IsHeld(s.sh.slots, i)
    ensures TotalInflight(s.sh.files) > 0 <==> s.sh.ready != []
  {
    EagerQueueIsEmpty(c, s);
    if s.sh.ready == [] { IdleMeansDrained(c, s); } else { ReadyMeansInflight(c, s); }
  }

  lemma HeldAt(slots: seq<SlabSlot>, i: nat)
    ensures IsHeld(slots, i) <==> i < |slots| && slots[i].payload.Some? && slots[i].payload.value.state.Held()
  {
  }

  /** A caller has begun to look for a staging slot, and has passed over the first `index`. */
  predicate Seeking(s: System, t: System, index: nat) { t == s.(seekers := s.seekers + multiset{index}) }

  /** Looking at one slot takes it or passes over it. */
  lemma SeekSteps(c: Config, s: System, t: System, index: nat)
    requires c.Valid() && Seeking(s, t, index) && index < |t.arena|
    ensures t.arena[index] ==>
              && Offered(c, t, AllocWrite(index)) && AssertsHold(c, t, AllocWrite(index))
              && !Exhausted(c, t, AllocWrite(index))
              && var t' := Apply(c, t, AllocWrite(index));
                 t' == s.(arena := t.arena[index := false], owned := s.owned + {index})
    ensures !t.arena[index] ==>
              && Offered(c, t, Skip(index)) && AssertsHold(c, t, Skip(index)) && !Exhausted(c, t, Skip(index))
              && Seeking(s, Apply(c, t, Skip(index)), index + 1)
              && Apply(c, t, Skip(index)) == t.(seekers := Apply(c, t, Skip(index)).seekers)
  {
    assert t.seekers - multiset{index} == s.seekers;
  }

  lemma SeekEnds(s: System, t: System, index: nat)
    requires Seeking(s, t, index)
    ensures t == s.(seekers := s.seekers + multiset{index})
  {
  }

  /** What pumping moves, and that the next completion fits. */
  lemma PumpFacts(c: Config, s: System, token: OpToken, outcome: Outcome)
    requires Reachable(c, s) && Offered(c, s, Publish(token, outcome, true))
    ensures forall s' | Next(c, s, Publish(token, outcome, true), s') ::
              && s'.tearing == s.tearing && s'.sh.ready == s.sh.ready && s'.executing == s.executing - {token}
              && s'.hist.requests == s.hist.requests && s'.hist.delivered == s.hist.delivered + []
              && Load(s'.sh.slots, c.retryBound) < Load(s.sh.slots, c.retryBound)
  {
    hide Load, Finish;
    NoAssertFires(c, s, Publish(token, outcome, true));
    StoredRetries(c, s, token.slot);
    FinishLoad(c, s.(executing := s.executing - {token}), token.slot, outcome);
    PublishMoves(c, s, token, outcome, true);
    assert s.hist.delivered + [] == s.hist.delivered;
    FinishRest(c, s.(executing := s.executing - {token}), token.slot, outcome);
  }

  lemma FinishRest(c: Config, s: System, slot: nat, outcome: Outcome)
    requires c.granule > 0 && Occupied(s.sh.slots, slot)
    requires EndingOf(EntryAt(s.sh.slots, slot), outcome).Freed? ==>
               CanComplete(s.sh.files, EntryAt(s.sh.slots, slot).fd)
    ensures var s' := Finish(c, s, slot, outcome);
            && s'.tearing == s.tearing && s'.sh.ready == s.sh.ready && s'.executing == s.executing
            && s'.sh.deferred == s.sh.deferred && SameFills(s.sh.slots, s'.sh.slots)
            && s'.hist.requests == s.hist.requests && s'.hist.delivered == s.hist.delivered
  {
  }

  /** What the eager backend is given to execute. */
  lemma PreparedShape(c: Config, s: System, token: OpToken)
    requires Reachable(c, s) && c.eager && ActiveToken(s.sh.slots, token)
    ensures Occupied(s.sh.slots, token.slot)
    ensures var e := EntryAt(s.sh.slots, token.slot);
            && (e.kind.Write? ==> e.destinationOffset == 0 && e.requestedLen == c.granule)
            && (e.kind.Fsync? ==> e.requestedLen == 0)
  {
    hide Reachable;
    StoredShape(c, s, token.slot);
    if EntryAt(s.sh.slots, token.slot).kind.Write? { EagerWritesAreWhole(c, s, token.slot); }
  }

  lemma PrepareEager(c: Config, s: System)
    requires Reachable(c, s) && s.sh.ready != []
    ensures Offered(c, s, Prepare) && AssertsHold(c, s, Prepare)
    ensures forall s' | Next(c, s, Prepare, s') ::
              && s'.sh.backlog == s.sh.backlog && s'.tearing == s.tearing && s'.sh.ready == s.sh.ready[1..]
              && s'.sh.deferred == s.sh.deferred && Handed(s, s', []) && SameFills(s.sh.slots, s'.sh.slots)
              && s'.seekers == s.seekers && s'.arena == s.arena
              && Load(s'.sh.slots, c.retryBound) == Load(s.sh.slots, c.retryBound)
              && forall batch, stale | Batch(s, batch, stale) :: Batch(s', batch, stale)
  {
    NoAssertFires(c, s, Prepare);
    PrepareLoad(c, s);
    assert s.hist.delivered + [] == s.hist.delivered;
    var s' := Apply(c, s, Prepare);
    assert s'.held == s.held && forall t: OpToken :: Contains(s.sh.slots, t) <==> Contains(s'.sh.slots, t);
    hide Apply, Contains, AssertsHold;
    forall batch, stale | Batch(s, batch, stale) ensures Batch(s', batch, stale) { BatchFrame(s, s', batch, stale); }
  }

  /** What a published completion leaves alone, and that it is told if it is not kept. */
  lemma PublishMoves(c: Config, s: System, token: OpToken, outcome: Outcome, toBacklog: bool)
    requires c.Valid() && Offered(c, s, Publish(token, outcome, toBacklog))
    requires AssertsHold(c, s, Publish(token, outcome, toBacklog))
    ensures var s' := Apply(c, s, Publish(token, outcome, toBacklog));
            && s'.sh.deferred == s.sh.deferred && s'.sh.ready == s.sh.ready && SameFills(s.sh.slots, s'.sh.slots)
            && s'.hist.requests == s.hist.requests
            && s'.hist.delivered == if toBacklog then s.hist.delivered
               else s.hist.delivered
                    + [CompletionOf(TokenAt(s.sh.slots, token.slot), EntryAt(s.sh.slots, token.slot), outcome)]
  {
    hide Finish, CompletionOf;
    FinishRest(c, s.(executing := s.executing - {token}), token.slot, outcome);
  }

  lemma PublishEager(c: Config, s: System, token: OpToken, outcome: Outcome, batch: seq<Completion>, stale: nat)
    requires Reachable(c, s) && Offered(c, s, Publish(token, outcome, false)) && stale <= |batch|
    ensures AssertsHold(c, s, Publish(token, outcome, false))
    ensures ActiveToken(s.sh.slots, token)
    ensures forall s' | Next(c, s, Publish(token, outcome, false), s') ::
              && s'.sh.backlog == s.sh.backlog && s'.tearing == s.tearing && s'.sh.ready == s.sh.ready
              && s'.executing == s.executing - {token} && s'.sh.deferred == s.sh.deferred
              && SameFills(s.sh.slots, s'.sh.slots) && s'.hist.requests == s.hist.requests
              && s'.hist.delivered == s.hist.delivered
                                      + [CompletionOf(token, EntryAt(s.sh.slots, token.slot), outcome)]
              && Load(s'.sh.slots, c.retryBound) < Load(s.sh.slots, c.retryBound)
              && (Batch(s, batch, stale) ==>
                    Batch(s', batch + [CompletionOf(token, EntryAt(s.sh.slots, token.slot), outcome)], stale))
  {
    NoAssertFires(c, s, Publish(token, outcome, false));
    ReachableInv(c, s);
    hide Inv, FlightOk;
    PreserveSlab.FlightLive(s.sh.slots, s.executing, s.cq, token);
    PublishLease(c, s, token, outcome);
    PublishLoad(c, s, token, outcome);
    PublishMoves(c, s, token, outcome, false);
    hide Apply, AssertsHold, Batch;
    if Batch(s, batch, stale) { BatchPublish(c, s, token, outcome, batch, stale); }
  }

  /** A fill takes one operation from the ready order into flight, whatever else is going on. */
  lemma PrepareFacts(c: Config, s: System)
    requires Reachable(c, s) && s.sh.ready != []
    ensures Offered(c, s, Prepare) && AssertsHold(c, s, Prepare)
    ensures forall s' | Next(c, s, Prepare, s') ::
              && s'.sh.backlog == s.sh.backlog && s'.cq == s.cq && s'.tearing == s.tearing
              && s'.sh.deferred == s.sh.deferred
              && s'.sh.ready == s.sh.ready[1..] && Handed(s, s', []) && SameFills(s.sh.slots, s'.sh.slots)
              && Work(s'.sh.slots, c.retryBound) == Work(s.sh.slots, c.retryBound)
              && Load(s'.sh.slots, c.retryBound) == Load(s.sh.slots, c.retryBound)
  {
    hide Load, Work;
    assert s.hist.delivered + [] == s.hist.delivered;
    NoAssertFires(c, s, Prepare);
    PrepareWork(c, s);
    PrepareLoad(c, s);
  }

  lemma HeldHasNoStaging(c: Config, s: System, slot: nat)
    requires Reachable(c, s)
    ensures IsHeld(s.sh.slots, slot) ==> EntryAt(s.sh.slots, slot).writeSlot.None?
  {
    hide SlabOk, EntriesOk, ReadyOk, FlightOk, LeaseOk, FilesOk, RetireOk, BackendOk, KnownOk, ArenaOk, RoomOk,
         TokensOk, ScatterOk, CloseOk;
    ReachableInv(c, s);
    if IsHeld(s.sh.slots, slot) { PreserveSlab.EntryFact(c, s.sh.slots, slot); }
  }

  /** Callers were told exactly `done`, no request was admitted, and every file that became due was
      retired. */
  ghost predicate Handed(s: System, t: System, done: seq<Completion>) {
    t.hist.delivered == s.hist.delivered + done && t.hist.requests == s.hist.requests && t.due == s.due
  }

  function Least(a: nat, b: nat): nat { if a < b then a else b }

  /** The completion queue with the answers to the head of the ready order behind it. */
  ghost predicate Extended(slots: seq<SlabSlot>, ready: seq<nat>, cqes: seq<Cqe>, room: nat, queue: seq<Cqe>) {
    && |queue| == |cqes| + Least(room, |ready|) && queue[..|cqes|] == cqes
    && forall k | 0 <= k < Least(room, |ready|) :: Names(slots, ready[k], queue[|cqes| + k].token)
  }

  /** One after another, the completions are what is to be heard of these executions, of the operations at
      the head of the ready order. */
  ghost predicate Logged(c: Config, requests: Requests, slots: seq<SlabSlot>, ready: seq<nat>, log: seq<Carried>,
                         done: seq<Completion>) {
    && |done| == |log| <= |ready|
    && forall k | 0 <= k < |log| :: Names(slots, ready[k], done[k].token) && Concerns(c, requests, log[k], done[k])
  }

  lemma LogOfNothing(c: Config, requests: Requests, slots: seq<SlabSlot>, ready: seq<nat>)
    ensures Logged(c, requests, slots, ready, [], [])
  {
  }

  lemma LogGrows(c: Config, requests: Requests, slots: seq<SlabSlot>, ready: seq<nat>, log: seq<Carried>,
                 done: seq<Completion>, r: Carried, d: Completion)
    requires Logged(c, requests, slots, ready, log, done) && |log| < |ready|
    requires Names(slots, ready[|log|], d.token) && Concerns(c, requests, r, d)
    ensures Logged(c, requests, slots, ready, log + [r], done + [d])
  {
    hide Names, Concerns;
  }

  lemma ExtendedByNothing(slots: seq<SlabSlot>, ready: seq<nat>, cqes: seq<Cqe>)
    ensures Extended(slots, ready, cqes, 0, cqes)
  {
  }

  /** The token names the present fill of the slot. */
  predicate Names(slots: seq<SlabSlot>, slot: nat, t: OpToken) { slot < |slots| && t == TokenAt(slots, slot) }

  lemma SameNames(x: seq<SlabSlot>, y: seq<SlabSlot>, z: seq<SlabSlot>, slot: nat, t: OpToken)
    requires SameFills(x, y) && SameFills(y, z) && Names(y, slot, t)
    ensures SameFills(x, z) && Names(x, slot, t)
  {
  }

  lemma BatchOfNothing(s: System)
    ensures Batch(s, [], 0) && Handed(s, s, [])
  {
    assert s.hist.delivered + [] == s.hist.delivered;
  }

  lemma HandedSame(s: System, t: System, u: System, done: seq<Completion>)
    requires Handed(s, t, done) && u.hist == t.hist && u.due == t.due
    ensures Handed(s, u, done)
  {
  }

  lemma HandedKeeps(s: System, t: System, done: seq<Completion>)
    requires Handed(s, t, done)
    ensures t.hist.requests == s.hist.requests
  {
  }

  lemma HandedTwice(s: System, t: System, u: System, a: seq<Completion>, b: seq<Completion>)
    requires Handed(s, t, a) && Handed(t, u, b)
    ensures Handed(s, u, a + b)
  {
    assert s.hist.delivered + a + b == s.hist.delivered + (a + b);
  }

  /** What closing a handle does; the file is due exactly if no operation names it. */
  lemma CloseFacts(c: Config, s: System, id: FileId)
    requires Reachable(c, s) && id in s.handles
    ensures forall s' | Next(c, s, Close(id), s') ::
              && s'.sh == s.sh.(files := s'.sh.files) && s'.handles == s.handles - {id} && id in s'.hist.closed
              && s'.hist.delivered == s.hist.delivered && s'.hist.requests == s.hist.requests
              && s'.due - {id} == s.due && (id in s'.due || (Draining(s'.sh.files, id) && !Gone(s'.sh.files, id)))
              && (id in s'.due <==> forall i: nat | Occupied(s.sh.slots, i) :: EntryAt(s.sh.slots, i).fd != id)
  {
    NoAssertFires(c, s, Close(id));
    var s' := Apply(c, s, Close(id));
    assert id !in s.due by {
      ReachableInv(c, s);
      assert Retiring(s.sh.deferred, s.due, s.cleared, id) == One(Drained(s.sh.files, id));
    }
    hide Reachable, Inv;
    if s.sh.files[id.slot].inflight == 0 {
      forall i: nat | Occupied(s.sh.slots, i) ensures EntryAt(s.sh.slots, i).fd != id { NamedIsCounted(c, s, i); }
    } else {
      var i := CountedIsNamed(c, s, id);
    }
  }

  lemma NamedIsCounted(c: Config, s: System, i: nat)
    requires Reachable(c, s) && Occupied(s.sh.slots, i)
    ensures var fd := EntryAt(s.sh.slots, i).fd;
            fd.slot < |s.sh.files| && s.sh.files[fd.slot].inflight > 0
  {
    hide SlabOk, EntriesOk, ReadyOk, FlightOk, LeaseOk, RetireOk, BackendOk, KnownOk, ArenaOk, RoomOk, TokensOk,
         ScatterOk, CloseOk;
    ReachableInv(c, s);
    CountMember(s.sh.slots, i, OnFile(EntryAt(s.sh.slots, i).fd.slot));
  }

  /** Deferred completions and retirements move nothing else. */
  ghost predicate Settled(s: System, t: System) {
    && t.sh == s.sh.(deferred := t.sh.deferred, files := t.sh.files)
    && t.executing == s.executing && t.cq == s.cq && t.tearing == s.tearing && t.held == s.held
    && t.handles == s.handles && Handed(s, t, [])
  }

  lemma FlushSettles(c: Config, s: System)
    requires Reachable(c, s) && s.sh.deferred != []
    ensures var s', d := Apply(c, s, Flush), s.sh.deferred[0];
            && Settled(s, s'.(due := s.due)) && s'.sh.deferred == s.sh.deferred[1..]
            && (d.retire ==> d.fd !in s.due) && s'.due == if d.retire then s.due + {d.fd} else s.due
  {
    var d := s.sh.deferred[0];
    assert s.hist.delivered + [] == s.hist.delivered;
    if d.retire {
      hide SlabOk, EntriesOk, ReadyOk, FlightOk, LeaseOk, FilesOk, BackendOk, KnownOk, ArenaOk, RoomOk, TokensOk,
           ScatterOk, CloseOk;
      ReachableInv(c, s);
      CountMember(s.sh.deferred, 0, RetireOf(d.fd));
      assert Retiring(s.sh.deferred, s.due, s.cleared, d.fd) <= 1;
    }
  }

  lemma DrainFacts(c: Config, s: System)
    requires Reachable(c, s) && s.sh.backlog != []
    ensures var s' := Apply(c, s, Drain);
            && s'.sh == s.sh.(backlog := s.sh.backlog[1..])
            && s'.executing == s.executing && s'.cq == s.cq && s'.tearing == s.tearing
            && Handed(s, s', [s.sh.backlog[0]])
  {
  }

  /** All a whole pass promises, together. */
  lemma PassDelivers(c: Config, s: System, limit: nat)
    requires Reachable(c, s) && !c.eager
    ensures var first := Pass(c, s, limit, true); first.count <= limit
    ensures var h := Pass(c, s, limit, false);
            && h.s.tearing == s.tearing && h.s.executing == s.executing && h.s.sh.backlog == s.sh.backlog
            && h.s.sh.deferred == s.sh.deferred
            && |h.done| <= h.count <= limit && Batch(h.s, h.done, 0)
            && Load(h.s.sh.slots, c.retryBound) + h.count <= Load(s.sh.slots, c.retryBound)
            && Harvested(c, s, h) && h.s.due - (set id | id in h.retires) == s.due
            && (forall k | 0 <= k < |h.retires| :: h.retires[k] in h.s.due)
            && (forall j, k | 0 <= j < k < |h.retires| :: h.retires[j] != h.retires[k])
  {
    PassFacts(c, s, limit, true);
    PassFacts(c, s, limit, false);
    PassRetires(c, s, limit, false);
    PassAnswers(c, s, limit, false);
    PassBatch(c, s, limit, false, []);
    assert [] + Pass(c, s, limit, false).done == Pass(c, s, limit, false).done;
  }

  /** A non-empty scratch list of distinct due files fits the file table. */
  lemma ScratchFits(c: Config, s: System, scratch: seq<FileId>)
    requires Reachable(c, s) && scratch != []
    requires forall k | 0 <= k < |scratch| :: scratch[k] in s.due
    requires forall j, k | 0 <= j < k < |scratch| :: scratch[j] != scratch[k]
    ensures |scratch| <= |s.sh.files|
  {
    var last := |scratch| - 1;
    RetireScratchFits(c, s, scratch[..last], scratch[last]);
  }

  /** What routing a completion entry relies on: every assert on its path. */
  predicate Routable(c: Config, s: System, cqe: Cqe) {
    && Contains(s.sh.slots, cqe.token) && TokenAt(s.sh.slots, cqe.token.slot) == cqe.token
    && var e := EntryAt(s.sh.slots, cqe.token.slot);
       && (e.kind.Write? && cqe.raw >= 0 ==> cqe.raw <= e.requestedLen)
       && var p := RingProgress(e, cqe.raw, c.retryBound).1;
          p.Finished? ==> FinishSafe(c, s, cqe.token.slot, p.outcome)
  }

  /** What routing a completion entry leaves behind and hands out. */
  ghost predicate Routed(c: Config, s: System, cqe: Cqe, sh: Shared, arena: seq<bool>, done: seq<Completion>,
                         retire: seq<FileId>)
    requires c.Valid() && Routable(c, s, cqe)
  {
    var slot := cqe.token.slot;
    var e := EntryAt(s.sh.slots, slot);
    var (e', p) := RingProgress(e, cqe.raw, c.retryBound);
    match p
    case Resubmit => sh == Requeue(s.sh, slot, e') && arena == s.arena && done == [] && retire == []
    case Finished(outcome) =>
      && sh == FinishAttempt(c, s.sh, slot, outcome) && arena == Finish(c, s, slot, outcome).arena
      && done == [CompletionOf(cqe.token, e, outcome)]
      && retire == if EndingOf(e, outcome).Freed? && Drained(OnComplete(s.sh.files, e.fd), e.fd) then [e.fd] else []
  }

  /** Reaping is always routable, and moves nothing but the queue besides. */
  lemma ReapParts(c: Config, s: System)
    requires Reachable(c, s) && c.Valid() && Offered(c, s, Reap) && AssertsHold(c, s, Reap)
    ensures Routable(c, s.(cq := s.cq[1..]), s.cq[0])
    ensures Apply(c, s, Reap).cq == s.cq[1..] && Apply(c, s, Reap).registered == s.registered
  {
    CqToken(c, s);
  }

  /** Routing the head of the queue is the reap step. */
  lemma RoutedIsReap(c: Config, s: System, sh: Shared, arena: seq<bool>, done: seq<Completion>, retire: seq<FileId>)
    requires c.Valid() && Offered(c, s, Reap) && AssertsHold(c, s, Reap)
    requires Routable(c, s.(cq := s.cq[1..]), s.cq[0])
             && Routed(c, s.(cq := s.cq[1..]), s.cq[0], sh, arena, done, retire)
    ensures sh == Apply(c, s, Reap).sh && arena == Apply(c, s, Reap).arena
    ensures done == Emitted(c, s) && retire == RetireDueAt(c, s)
  {
  }

  /** What ending an attempt does to the parts of the system, the guarded structures aside. */
  lemma FinishParts(c: Config, s: System, slot: nat, outcome: Outcome)
    requires c.Valid() && FinishSafe(c, s, slot, outcome)
    ensures var e, s' := EntryAt(s.sh.slots, slot), Finish(c, s, slot, outcome);
            && s'.sh == FinishAttempt(c, s.sh, slot, outcome)
            && s'.sh.backlog == s.sh.backlog && s'.cq == s.cq && s'.registered == s.registered
            && (EndingOf(e, outcome).Freed? && Drained(OnComplete(s.sh.files, e.fd), e.fd) ==>
                  s'.due == s.due + {e.fd} && !Drained(s.sh.files, e.fd))
            && (!(EndingOf(e, outcome).Freed? && Drained(OnComplete(s.sh.files, e.fd), e.fd)) ==> s'.due == s.due)
  {
  }

  lemma UndrainedIsNotDue(c: Config, s: System, id: FileId)
    requires Reachable(c, s) && !Drained(s.sh.files, id)
    ensures id !in s.due
  {
    hide SlabOk, EntriesOk, ReadyOk, FlightOk, LeaseOk, FilesOk, BackendOk, KnownOk, ArenaOk, RoomOk, TokensOk,
         ScatterOk, CloseOk;
    ReachableInv(c, s);
    assert Retiring(s.sh.deferred, s.due, s.cleared, id) == One(Drained(s.sh.files, id));
  }

  /** What publishing does besides ending the attempt. */
  lemma PublishParts(c: Config, s: System, token: OpToken, outcome: Outcome, toBacklog: bool)
    requires Reachable(c, s) && Offered(c, s, Publish(token, outcome, toBacklog))
    ensures c.Valid() && AssertsHold(c, s, Publish(token, outcome, toBacklog))
    ensures !Exhausted(c, s, Publish(token, outcome, toBacklog))
    ensures Contains(s.sh.slots, token) && TokenAt(s.sh.slots, token.slot) == token
    ensures FinishSafe(c, s.(executing := s.executing - {token}), token.slot, outcome)
    ensures toBacklog ==> |s.sh.backlog| < c.capacity
    ensures var s', e := Apply(c, s, Publish(token, outcome, toBacklog)), EntryAt(s.sh.slots, token.slot);
            var f := Finish(c, s.(executing := s.executing - {token}), token.slot, outcome);
            var sh, done := FinishAttempt(c, s.sh, token.slot, outcome), CompletionOf(token, e, outcome);
            && sh.backlog == s.sh.backlog
            && s'.sh == (if toBacklog then sh.(backlog := s.sh.backlog + [done]) else sh)
            && s'.arena == f.arena && s'.cq == s.cq && s'.registered == s.registered
            && (EndingOf(e, outcome).Freed? && Drained(OnComplete(s.sh.files, e.fd), e.fd) ==>
                  s'.due == s.due + {e.fd} && e.fd !in s.due)
            && (!(EndingOf(e, outcome).Freed? && Drained(OnComplete(s.sh.files, e.fd), e.fd)) ==> s'.due == s.due)
  {
    hide Finish, FinishAttempt;
    FlightToken(c, s, token);
    NoAssertFires(c, s, Publish(token, outcome, toBacklog));
    FinishParts(c, s.(executing := s.executing - {token}), token.slot, outcome);
    hide Reachable;
    var fd := EntryAt(s.sh.slots, token.slot).fd;
    if !Drained(s.sh.files, fd) { UndrainedIsNotDue(c, s, fd); }
  }

  /** What dropping a lease relies on and does. */
  lemma DropParts(c: Config, s: System, token: OpToken)
    requires Reachable(c, s) && token in s.held
    ensures c.Valid() && Offered(c, s, DropLease(token)) && AssertsHold(c, s, DropLease(token))
    ensures !Exhausted(c, s, DropLease(token)) && token.slot < |s.sh.slots|
    ensures var live, s' := Contains(s.sh.slots, token), Apply(c, s, DropLease(token));
            && (live ==> IsHeld(s.sh.slots, token.slot) && CanComplete(s.sh.files, EntryAt(s.sh.slots, token.slot).fd))
            && (live ==> !EntryAt(s.sh.slots, token.slot).frame && |s.sh.deferred| < c.capacity)
            && s'.sh == (if live then ReleaseReadLease(s.sh, token.slot) else s.sh)
            && s'.arena == s.arena && s'.registered == s.registered && s'.cq == s.cq
  {
    hide ReleaseReadLease;
    NoAssertFires(c, s, DropLease(token));
    HeldHasNoStaging(c, s, token.slot);
  }

  /** The token a fill is about to put in flight is live and not in flight yet. */
  lemma PrepareToken(c: Config, s: System)
    requires Reachable(c, s) && s.sh.ready != []
    ensures s.sh.ready[0] < |s.sh.slots| && TokenAt(s.sh.slots, s.sh.ready[0]) !in s.executing
  {
    hide SlabOk, EntriesOk, LeaseOk, FilesOk, RetireOk, BackendOk, KnownOk, ArenaOk, RoomOk, TokensOk, ScatterOk,
         CloseOk;
    ReachableInv(c, s);
    PreserveSlab.ReadyHead(s.sh.slots, s.sh.ready);
    assert !ActiveToken(s.sh.slots, TokenAt(s.sh.slots, s.sh.ready[0]));
    assert Outstanding(s.executing, s.cq, TokenAt(s.sh.slots, s.sh.ready[0])) == 0;
  }

  lemma FlightToken(c: Config, s: System, token: OpToken)
    requires Reachable(c, s) && token in s.executing
    ensures token.slot < |s.sh.slots| && TokenAt(s.sh.slots, token.slot) == token
  {
    hide SlabOk, EntriesOk, ReadyOk, FlightOk, LeaseOk, FilesOk, RetireOk, BackendOk, KnownOk, ArenaOk, RoomOk,
         TokensOk, ScatterOk, CloseOk;
    ReachableInv(c, s);
    PreserveSlab.FlightLive(s.sh.slots, s.executing, s.cq, token);
  }

  lemma CqToken(c: Config, s: System)
    requires Reachable(c, s) && s.cq != []
    ensures Contains(s.sh.slots, s.cq[0].token) && TokenAt(s.sh.slots, s.cq[0].token.slot) == s.cq[0].token
  {
    hide Inv;
    ReachableInv(c, s);
    CqeFacts(c, s);
  }
}
