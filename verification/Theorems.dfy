/** Laws of every run of the driver, read off the invariant. */
module Theorems {
  import opened Types
  import opened Counting
  import opened Ops
  import opened Core
  import opened Invariant
  import opened PreserveLease
  import opened PreserveFiles
  import opened Steps

  // ---------------------------------------------------------------- reachable states

  lemma {:induction false} DescendingCount(n: nat, i: nat)
    ensures Count(Descending(n), Is(i)) == One(i < n)
    ensures forall k | 0 <= k < n :: Descending(n)[k] < n
  {
    if n > 0 { DescendingCount(n - 1, i); }
  }

  lemma {:induction false} EmptyTotal(n: nat)
    ensures TotalInflight(Empty(n, FileSlot(0, Free, 0))) == 0
  {
    if n > 0 { EmptyTotal(n - 1); }
  }

  lemma InitSlab(c: Config)
    ensures var s := Init(c);
            && SlabOk(c, s.sh.slots, s.sh.free) && EntriesOk(c, s.sh.slots) && ReadyOk(s.sh.slots, s.sh.ready)
            && FlightOk(s.sh.slots, s.executing, s.cq) && KnownOk(s.sh.slots, s.known)
            && ArenaOk(c, s.sh.slots, s.arena, s.owned)
  {
    var s := Init(c);
    forall i: nat ensures Count(s.sh.free, Is(i)) == One(i < c.capacity) { DescendingCount(c.capacity, i); }
    DescendingCount(c.capacity, 0);
    CountNone(s.sh.slots, Filled());
    CountNone(s.sh.slots, Waiting());
    forall w: nat ensures Count(s.sh.slots, OnWrite(w)) == 0 { CountNone(s.sh.slots, OnWrite(w)); }
  }

  lemma InitTokens(c: Config)
    ensures var s := Init(c);
            && TokensOk(s.sh.slots, s.hist.issued, s.hist.ended, s.hist.dropped, s.hist.freed)
            && ScatterOk(s.sh.slots, s.hist.issued, s.hist.scattered, s.hist.dropped)
  {
  }

  lemma InitCounts(c: Config)
    ensures var s := Init(c);
            && LeaseOk(s.sh.slots, s.sh.backlog, s.held, s.tearing) && FilesOk(s.sh.slots, s.sh.files)
            && RoomOk(c, s.sh.slots, s.sh.backlog, s.sh.deferred, s.held, s.tearing)
  {
    var s := Init(c);
    CountNone(s.sh.slots, Filled());
    CountNone(s.sh.slots, Leaving());
    forall f: nat ensures Count(s.sh.slots, OnFile(f)) == 0 { CountNone(s.sh.slots, OnFile(f)); }
    EmptyTotal(c.fileCapacity);
  }

  lemma InitFiles(c: Config)
    ensures var s := Init(c);
            && RetireOk(s.sh.files, s.sh.deferred, s.due, s.cleared)
            && BackendOk(c, s.sh.files, s.opening, s.handles, s.known, s.registered, s.cleared)
            && CloseOk(s.sh.files, s.hist.closed, s.hist.due, s.hist.retired)
  {
  }

  lemma InitHolds(c: Config)
    requires c.Valid()
    ensures Inv(c, Init(c))
  {
    hide SlabOk, EntriesOk, ReadyOk, FlightOk, LeaseOk, FilesOk, RetireOk, BackendOk, KnownOk, ArenaOk, RoomOk,
         TokensOk, ScatterOk, CloseOk, Init;
    InitSlab(c);
    InitTokens(c);
    InitCounts(c);
    InitFiles(c);
  }

  lemma {:induction false} RunKeeps(c: Config, s: System, steps: seq<Step>, t: System)
    requires Inv(c, s) && Run(c, s, steps, t)
    ensures Inv(c, t)
    decreases |steps|
  {
    hide Inv, Apply, Exhausted;
    if steps != [] {
      StepKeeps(c, s, steps[0]);
      RunKeeps(c, Apply(c, s, steps[0]), steps[1..], t);
    }
  }

  /** Every reachable state satisfies the invariant. */
  lemma ReachableInv(c: Config, s: System)
    requires Reachable(c, s)
    ensures Inv(c, s)
  {
    hide Inv;
    var steps :| Run(c, Init(c), steps, s);
    InitHolds(c);
    RunKeeps(c, Init(c), steps, s);
  }

  /** One more step of a run is a run. */
  lemma {:induction false} RunSnoc(c: Config, s: System, steps: seq<Step>, t: System, step: Step)
    requires Run(c, s, steps, t)
    requires c.Valid() && Offered(c, t, step) && AssertsHold(c, t, step) && !Exhausted(c, t, step)
    ensures Run(c, s, steps + [step], Apply(c, t, step))
    decreases |steps|
  {
    hide Apply, Exhausted, AssertsHold, Offered;
    if steps == [] {
      assert (steps + [step])[1..] == [];
    } else {
      assert (steps + [step])[1..] == steps[1..] + [step];
      RunSnoc(c, Apply(c, s, steps[0]), steps[1..], t, step);
    }
  }

  lemma ReachableStep(c: Config, s: System, step: Step)
    requires Reachable(c, s) && Offered(c, s, step) && AssertsHold(c, s, step) && !Exhausted(c, s, step)
    ensures Reachable(c, Apply(c, s, step))
  {
    hide Apply, Exhausted, AssertsHold, Offered;
    var steps :| Run(c, Init(c), steps, s);
    RunSnoc(c, Init(c), steps, s, step);
  }

  // ---------------------------------------------------------------- no assert fires

  /** In every run, whatever the surroundings do next and in whatever order completions arrive, the
      asserts of the code hold, except for continuing a read that teardown has abandoned. */
  lemma NoAssertFires(c: Config, s: System, step: Step)
    requires Reachable(c, s) && Offered(c, s, step) && !Exhausted(c, s, step)
    ensures AssertsHold(c, s, step) <==> !StaleContinue(s, step)
    ensures !s.tearing ==> AssertsHold(c, s, step)
  {
    hide Inv, Apply, Exhausted;
    ReachableInv(c, s);
    if !StaleContinue(s, step) { StepKeeps(c, s, step); }
  }

  /** Every operation slot is in exactly one place: the free list, the ready order, one outstanding
      attempt or completion entry, or one read lease. */
  lemma OnePlace(c: Config, s: System, i: nat)
    requires Reachable(c, s) && i < c.capacity && (s.tearing ==> Occupied(s.sh.slots, i))
    ensures i < |s.sh.slots|
    ensures var t := TokenAt(s.sh.slots, i);
            && Count(s.sh.free, Is(i)) == One(!Occupied(s.sh.slots, i))
            && Count(s.sh.ready, Is(i)) == One(InState(s.sh.slots, i, Queued))
            && Outstanding(s.executing, s.cq, t) == One(InState(s.sh.slots, i, Active))
            && Leases(s.held, s.sh.backlog, t) == One(IsHeld(s.sh.slots, i))
            && Count(s.sh.free, Is(i)) + Count(s.sh.ready, Is(i))
               + Outstanding(s.executing, s.cq, t) + Leases(s.held, s.sh.backlog, t) == 1
  {
    ReachableInv(c, s);
    var t := TokenAt(s.sh.slots, i);
    assert ActiveToken(s.sh.slots, t) == InState(s.sh.slots, i, Active);
    assert HeldToken(s.sh.slots, t) == IsHeld(s.sh.slots, i);
  }

  // ---------------------------------------------------------------- exactly-once completion

  /** A submission that is admitted mints a token no earlier one ever had, and a 64-bit word can
      carry it; a refused one changes nothing, so a refused write keeps its staging slot. */
  lemma TokensAreFresh(c: Config, s: System, req: Request, position: nat)
    requires Reachable(c, s) && Offered(c, s, Submit(req, position)) && !Exhausted(c, s, Submit(req, position))
    ensures AssertsHold(c, s, Submit(req, position))
    ensures var s', a := Apply(c, s, Submit(req, position)), Admit(c, s.sh, req.fd);
            if a.Admitted? then
              && a.slot < |s'.sh.slots|
              && var t := TokenAt(s'.sh.slots, a.slot);
                 t !in s.hist.issued && s'.hist.issued == s.hist.issued + {t} && t.Fits() && Contains(s'.sh.slots, t)
            else s' == s
  {
    hide Inv;
    NoAssertFires(c, s, Submit(req, position));
    ReachableInv(c, s);
    if Admit(c, s.sh, req.fd).Admitted? { FillIsFresh(c, s, req); }
  }

  lemma FillIsFresh(c: Config, s: System, req: Request)
    requires c.Valid() && Inv(c, s) && Admit(c, s.sh, req.fd).Admitted?
    ensures var a := Admit(c, s.sh, req.fd);
            && a.slot < |s.sh.slots|
            && var t := OpToken(a.slot, s.sh.slots[a.slot].generation + 1);
               t !in s.hist.issued && a.slot <= U32_MAX && (t.generation <= U32_MAX + 1)
  {
    hide EntriesOk, ReadyOk, FlightOk, LeaseOk, FilesOk, RetireOk, BackendOk, KnownOk, ArenaOk, RoomOk, ScatterOk,
         CloseOk;
    AdmitReserves(c, s, req.fd);
  }

  /** Each admitted operation ends exactly once, and its slot is freed exactly once, then or (for
      a held vector read) later. A point operation ends only by its one terminal completion, in
      the step that frees its slot. */
  lemma ExactlyOnce(c: Config, s: System, t: OpToken)
    requires Reachable(c, s) && t in s.hist.issued
    ensures s.hist.ended[t] + s.hist.dropped[t] == One(Over(s.sh.slots, t))
    ensures s.hist.freed[t] == One(!Contains(s.sh.slots, t))
    ensures t !in s.hist.scattered ==>
            s.hist.dropped[t] == 0 && s.hist.ended[t] == s.hist.freed[t] == One(!Contains(s.sh.slots, t))
  {
    ReachableInv(c, s);
    if t !in s.hist.scattered && Contains(s.sh.slots, t) {
      assert EntryOk(c, EntryAt(s.sh.slots, t.slot));
    }
  }

  // ---------------------------------------------------------------- capacity

  /** Each file's count is the number of operations naming that exact generation, and the total is
      the number of occupied slots. */
  lemma InflightIsExact(c: Config, s: System, f: nat)
    requires Reachable(c, s) && f < |s.sh.files|
    ensures s.sh.files[f].inflight
            == Count(s.sh.slots, (x: SlabSlot) => x.payload.Some?
                && x.payload.value.fd == FileId(f, s.sh.files[f].generation))
    ensures TotalInflight(s.sh.files) == Count(s.sh.slots, Filled())
  {
    ReachableInv(c, s);
    var p := (x: SlabSlot) => x.payload.Some? && x.payload.value.fd == FileId(f, s.sh.files[f].generation);
    forall i | 0 <= i < |s.sh.slots| ensures p(s.sh.slots[i]) == OnFile(f)(s.sh.slots[i]) {
      if s.sh.slots[i].payload.Some? { assert Occupied(s.sh.slots, i); }
    }
    CountImplies(s.sh.slots, p, OnFile(f));
    CountImplies(s.sh.slots, OnFile(f), p);
  }

  /** In-flight operations, final completions in the backlog and deferred ones fit the capacity, so
      after the capacity test `reserve` succeeds; the backlog itself never outgrows it either. */
  lemma CapacityHolds(c: Config, s: System)
    requires Reachable(c, s)
    ensures TotalInflight(s.sh.files) + Count(s.sh.backlog, Final()) + |s.sh.deferred| <= c.capacity
    ensures !s.tearing ==> |s.sh.backlog| <= c.capacity
    ensures forall fd | IsLive(s.sh.files, fd) ::
              Admit(c, s.sh, fd).Full? <==> TotalInflight(s.sh.files) + (|s.sh.backlog| + |s.sh.deferred|) >= c.capacity
  {
    hide SlabOk, EntriesOk, ReadyOk, FlightOk, LeaseOk, FilesOk, RetireOk, BackendOk, KnownOk, ArenaOk, TokensOk,
         ScatterOk, CloseOk;
    ReachableInv(c, s);
    FilesTotal(s.sh.slots, s.sh.files);
    LeasedOrFinal(s.sh.backlog);
    CountImplies(s.sh.slots, Leaving(), Filled());
    forall fd | IsLive(s.sh.files, fd) ensures
      Admit(c, s.sh, fd).Full? <==> TotalInflight(s.sh.files) + (|s.sh.backlog| + |s.sh.deferred|) >= c.capacity
    {
      AdmitReserves(c, s, fd);
    }
  }

  /** Admission on a handle that was ever returned: refused as stale exactly when the file is not
      live, as full exactly by the capacity test; otherwise an empty slot is on the free list. */
  lemma AdmissionIsExact(c: Config, s: System, fd: FileId)
    requires Reachable(c, s) && fd in s.known
    ensures fd.slot < |s.sh.files|
    ensures Admit(c, s.sh, fd).StaleHandle? <==> !IsLive(s.sh.files, fd)
    ensures Admit(c, s.sh, fd).Full? <==>
              IsLive(s.sh.files, fd) && TotalInflight(s.sh.files) + (|s.sh.backlog| + |s.sh.deferred|) >= c.capacity
    ensures Admit(c, s.sh, fd).Admitted? ==>
              && s.sh.free != [] && Admit(c, s.sh, fd).slot == s.sh.free[|s.sh.free| - 1] < |s.sh.slots|
              && s.sh.slots[Admit(c, s.sh, fd).slot].payload.None?
  {
    hide SlabOk, EntriesOk, ReadyOk, FlightOk, LeaseOk, FilesOk, RetireOk, BackendOk, KnownOk, ArenaOk, RoomOk,
         TokensOk, ScatterOk, CloseOk;
    ReachableInv(c, s);
    BackendFacts(c, s, fd);
    if IsLive(s.sh.files, fd) { AdmitReserves(c, s, fd); }
  }

  /** Counting every backlog completion, the sum exceeds the capacity by at most the leased ones;
      so it stays within the capacity whenever the backlog carries no lease. */
  lemma NaiveSum(c: Config, s: System)
    requires Reachable(c, s)
    ensures TotalInflight(s.sh.files) + |s.sh.backlog| + |s.sh.deferred| <= c.capacity + Count(s.sh.backlog, Leased())
  {
    CapacityHolds(c, s);
    LeasedOrFinal(s.sh.backlog);
  }

  // ---------------------------------------------------------------- deferred close

  /** Each closed file generation becomes due for retirement exactly once, as soon as it has no
      operation in flight; until its retirement finished it is in exactly one retiring place. */
  lemma ClosesExactlyOnce(c: Config, s: System, id: FileId)
    requires Reachable(c, s) && id in s.hist.closed
    ensures s.hist.due[id] == One(!Draining(s.sh.files, id))
    ensures s.hist.retired[id] == One(Gone(s.sh.files, id))
    ensures s.hist.due[id] == s.hist.retired[id] + Retiring(s.sh.deferred, s.due, s.cleared, id)
    ensures Retiring(s.sh.deferred, s.due, s.cleared, id) > 0 ==> Drained(s.sh.files, id)
    ensures !IsLive(s.sh.files, id)
  {
    ReachableInv(c, s);
    assert Retiring(s.sh.deferred, s.due, s.cleared, id) == One(Drained(s.sh.files, id));
  }

  /** With no retirement under way, a closed file reads as closed exactly when no operation names it: the
      close that had to wait is complete as soon as the last of them has left its slot. */
  lemma ClosedOnceDrained(c: Config, s: System, id: FileId)
    requires Reachable(c, s) && id in s.hist.closed && s.due == s.cleared == {} && s.sh.deferred == []
    ensures Gone(s.sh.files, id) <==>
              forall i: nat | Occupied(s.sh.slots, i) :: EntryAt(s.sh.slots, i).fd != id
  {
    ClosesExactlyOnce(c, s, id);
    assert Retiring(s.sh.deferred, s.due, s.cleared, id) == 0;
    hide Reachable;
    if Gone(s.sh.files, id) {
      forall i: nat | Occupied(s.sh.slots, i) ensures EntryAt(s.sh.slots, i).fd != id { NamesServing(c, s, i); }
    } else {
      var i := CountedIsNamed(c, s, id);
    }
  }

  lemma CountedIsNamed(c: Config, s: System, id: FileId) returns (i: nat)
    requires Reachable(c, s) && Current(s.sh.files, id) && s.sh.files[id.slot].inflight > 0
    ensures Occupied(s.sh.slots, i) && EntryAt(s.sh.slots, i).fd == id
  {
    hide SlabOk, EntriesOk, ReadyOk, FlightOk, LeaseOk, RetireOk, BackendOk, KnownOk, ArenaOk, RoomOk, TokensOk,
         ScatterOk, CloseOk;
    ReachableInv(c, s);
    i := CountWitness(s.sh.slots, OnFile(id.slot));
  }

  lemma NamesServing(c: Config, s: System, i: nat)
    requires Reachable(c, s) && Occupied(s.sh.slots, i)
    ensures var fd := EntryAt(s.sh.slots, i).fd;
            Current(s.sh.files, fd) && Serving(s.sh.files[fd.slot])
  {
    hide SlabOk, EntriesOk, ReadyOk, FlightOk, LeaseOk, RetireOk, BackendOk, KnownOk, ArenaOk, RoomOk, TokensOk,
         ScatterOk, CloseOk;
    ReachableInv(c, s);
  }

  /** The slot a file is closing in is not reopened before its retirement has finished, and the
      backend holds exactly that generation until it is told to drop it. */
  lemma RetiringSlotIsNotReused(c: Config, s: System, id: FileId)
    requires Reachable(c, s) && Current(s.sh.files, id) && s.sh.files[id.slot].state.Closing?
    ensures FirstReusable(s.sh.files, 0) != id.slot
    ensures id.slot < |s.registered|
    ensures s.registered[id.slot] == if id in s.cleared then None else Some(id.generation)
    ensures Draining(s.sh.files, id) ==> id !in s.due && id !in s.cleared
  {
    ReachableInv(c, s);
    assert IdAt(s.sh.files, id.slot) == id;
    assert id !in s.handles;
    assert Backed(s.sh.files, s.handles, s.cleared, id.slot) == (id !in s.cleared);
    assert Retiring(s.sh.deferred, s.due, s.cleared, id) == One(Drained(s.sh.files, id));
  }

  lemma {:induction false} DistinctBelow(xs: seq<nat>, n: nat)
    requires forall i | 0 <= i < |xs| :: xs[i] < n
    requires forall i, j | 0 <= i < j < |xs| :: xs[i] != xs[j]
    ensures |xs| <= n
    decreases n
  {
    if xs != [] {
      assert xs[0] < n;
      if k :| 0 <= k < |xs| && xs[k] == n - 1 {
        DistinctBelow(xs[..k] + xs[k + 1..], n - 1);
      } else {
        DistinctBelow(xs, n - 1);
      }
    }
  }

  /** Files due for retirement have pairwise distinct slots, so a scratch list of such files, with
      one more about to be recorded, is shorter than the file table: recording never overflows. */
  lemma RetireScratchFits(c: Config, s: System, scratch: seq<FileId>, id: FileId)
    requires Reachable(c, s)
    requires forall k | 0 <= k < |scratch| :: scratch[k] in s.due
    requires forall j, k | 0 <= j < k < |scratch| :: scratch[j] != scratch[k]
    requires id in s.due && id !in scratch
    ensures |scratch| < |s.sh.files|
    ensures forall k | 0 <= k < |scratch| :: scratch[k].slot != id.slot
  {
    hide SlabOk, EntriesOk, ReadyOk, FlightOk, LeaseOk, FilesOk, RetireOk, BackendOk, KnownOk, ArenaOk, RoomOk,
         TokensOk, ScatterOk, CloseOk;
    ReachableInv(c, s);
    RetireFact(s.sh.files, s.sh.deferred, s.due, s.cleared);
    var all := scratch + [id];
    var xs := seq(|all|, k requires 0 <= k < |all| => all[k].slot);
    forall k | 0 <= k < |all| ensures Drained(s.sh.files, all[k]) {}
    DistinctBelow(xs, |s.sh.files|);
  }

  /** A step that makes a file due makes one due that was not. */
  lemma DueIsNew(c: Config, s: System, step: Step, id: FileId)
    requires Reachable(c, s) && Offered(c, s, step) && AssertsHold(c, s, step) && !Exhausted(c, s, step)
    requires Apply(c, s, step).hist.due[id] > s.hist.due[id]
    ensures id !in s.due && id !in s.cleared && s.hist.due[id] == 0 && Apply(c, s, step).hist.due[id] == 1
  {
    hide SlabOk, EntriesOk, ReadyOk, FlightOk, LeaseOk, FilesOk, RetireOk, BackendOk, KnownOk, ArenaOk, RoomOk,
         TokensOk, ScatterOk, CloseOk;
    hide Apply, Exhausted, Offered;
    ReachableInv(c, s);
    StepKeeps(c, s, step);
    RetireFact(s.sh.files, s.sh.deferred, s.due, s.cleared);
    CloseDue(s.sh.files, s.hist, id);
    CloseDue(Apply(c, s, step).sh.files, Apply(c, s, step).hist, id);
  }

  // ---------------------------------------------------------------- staging slots

  lemma {:induction false} CountTwo<T>(s: seq<T>, i: nat, j: nat, p: T -> bool)
    requires i < j < |s| && p(s[i]) && p(s[j])
    ensures Count(s, p) >= 2
  {
    CountSplit(s, j, p);
    CountMember(s[..j], i, p);
    CountMember(s[j..], 0, p);
  }

  /** No two live operations hold the same staging slot, nor does a caller hold one of theirs, and
      the slot of a live write stays taken. */
  lemma StagingSlotsAreExclusive(c: Config, s: System, i: nat, j: nat)
    requires Reachable(c, s) && Occupied(s.sh.slots, i) && EntryAt(s.sh.slots, i).writeSlot.Some?
    ensures var w := EntryAt(s.sh.slots, i).writeSlot.value;
            && w < |s.arena| && !s.arena[w] && w !in s.owned
            && (j != i && Occupied(s.sh.slots, j) ==> EntryAt(s.sh.slots, j).writeSlot != Some(w))
  {
    ReachableInv(c, s);
    var w := EntryAt(s.sh.slots, i).writeSlot.value;
    assert EntryOk(c, EntryAt(s.sh.slots, i));
    CountMember(s.sh.slots, i, OnWrite(w));
    if j != i && Occupied(s.sh.slots, j) && EntryAt(s.sh.slots, j).writeSlot == Some(w) {
      CountTwo(s.sh.slots, if i < j then i else j, if i < j then j else i, OnWrite(w));
    }
  }
}
