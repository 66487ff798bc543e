/** When in-flight operations and retained completions together can exceed the capacity: exactly for
    an eager driver with a file to work on and room for two frames in a vector read. */
module Capacity {
  import opened Types
  import opened Counting
  import opened Ops
  import opened Core
  import opened Invariant
  import opened PreserveFiles
  import opened Theorems
  import opened Teardown
  import opened Arithmetic

  /** Every retained completion counted, leased or not. */
  function Retained(s: System): nat {
    TotalInflight(s.sh.files) + |s.sh.backlog| + |s.sh.deferred|
  }

  /** A vector read of two frames can be built. */
  predicate VectorsExist(c: Config) {
    c.frames >= 2 && 2 * c.granule <= VECTOR_BYTES_MAX
  }

  /** The limits on a vector leave room for one exactly then. */
  lemma VectorsExistIff(c: Config)
    ensures VectorsExist(c) <==> exists frames: nat :: VectorFrames(c, frames)
  {
    if VectorsExist(c) { assert VectorFrames(c, 2); }
    forall frames: nat | VectorFrames(c, frames) ensures VectorsExist(c) { MulGrows(2, frames, c.granule); }
  }

  // ---------------------------------------------------------------- filling a driver to the brim

  const FILE: FileId := FileId(0, 1)

  const VECTOR_READ: Request := VectorRequest(FILE, 0, 2, Pool)

  /** The first `taken` staging slots are taken. */
  predicate Taken(s: System, taken: nat) {
    taken <= |s.arena| && forall w | 0 <= w < |s.arena| :: s.arena[w] <==> w >= taken
  }

  /** `n` operations wait on one open file, the vector read first; `taken` staging slots are taken,
      and one caller has passed over the first `sought` of them. */
  ghost predicate Brimming(c: Config, s: System, n: nat, taken: nat, sought: nat) {
    && Reachable(c, s) && !s.tearing && s.executing == {} && FILE in s.known && IsLive(s.sh.files, FILE)
    && Taken(s, taken) && |s.arena| == c.writeSlots && sought in s.seekers
    && s.sh.backlog == [] && s.sh.deferred == [] && TotalInflight(s.sh.files) == n == |s.sh.ready|
    && (forall i: nat | i < |s.sh.slots| && s.sh.slots[i].payload.None? :: s.sh.slots[i].generation == 0)
    && (n > 0 ==>
          Occupied(s.sh.slots, s.sh.ready[0]) && EntryAt(s.sh.slots, s.sh.ready[0]) == EntryOf(c, VECTOR_READ))
  }

  lemma Opened(c: Config) returns (s: System)
    requires c.Valid() && c.fileCapacity > 0
    ensures Brimming(c, s, 0, 0, 0)
  {
    var s0 := Init(c);
    assert Run(c, s0, [], s0);
    EmptyTotal(c.fileCapacity);
    assert FirstReusable(s0.sh.files, 0) == 0;
    NoAssertFires(c, s0, ReserveFile);
    ReachableStep(c, s0, ReserveFile);
    var s1 := Apply(c, s0, ReserveFile);
    TotalUpdate(s0.sh.files, 0, FileSlot(1, Open, 0));
    assert FILE in s1.opening;
    NoAssertFires(c, s1, RegisterFile(FILE));
    ReachableStep(c, s1, RegisterFile(FILE));
    var s2 := Apply(c, s1, RegisterFile(FILE));
    ReachableStep(c, s2, Seek);
    s := Apply(c, s2, Seek);
  }

  /** A caller looking for a staging slot passes over the taken ones. */
  lemma {:induction false} Passed(c: Config, s: System, taken: nat, sought: nat) returns (s': System)
    requires c.Valid() && Brimming(c, s, 0, taken, 0) && sought <= taken
    ensures Brimming(c, s', 0, taken, sought)
  {
    s' := s;
    if sought > 0 {
      s' := Passed(c, s, taken, sought - 1);
      ReachableStep(c, s', Skip(sought - 1));
      s' := Apply(c, s', Skip(sought - 1));
    }
  }

  /** Callers take every staging slot, each the first that is free, and one more begins to look. */
  lemma {:induction false} SlotsTaken(c: Config, taken: nat) returns (s: System)
    requires c.Valid() && c.fileCapacity > 0 && taken <= c.writeSlots
    ensures Brimming(c, s, 0, taken, 0)
  {
    if taken == 0 {
      s := Opened(c);
    } else {
      s := SlotsTaken(c, taken - 1);
      s := Passed(c, s, taken - 1, taken - 1);
      s := TakeNext(c, s, taken - 1);
    }
  }

  lemma TakeNext(c: Config, s: System, taken: nat) returns (s': System)
    requires c.Valid() && Brimming(c, s, 0, taken, taken) && taken < c.writeSlots
    ensures Brimming(c, s', 0, taken + 1, 0)
  {
    ReachableStep(c, s, AllocWrite(taken));
    var s1 := Apply(c, s, AllocWrite(taken));
    ReachableStep(c, s1, Seek);
    s' := Apply(c, s1, Seek);
  }

  /** One more operation is admitted as long as there is room. */
  lemma AddOne(c: Config, s: System, n: nat) returns (s': System)
    requires c.Valid() && VectorsExist(c) && Brimming(c, s, n, c.writeSlots, c.writeSlots) && n < c.capacity
    ensures Brimming(c, s', n + 1, c.writeSlots, c.writeSlots)
  {
    var req := if n == 0 then VECTOR_READ else FsyncRequest(FILE);
    var step := Submit(req, n);
    AdmissionIsExact(c, s, FILE);
    TokensAreFresh(c, s, req, n);
    ReachableStep(c, s, step);
    s' := Apply(c, s, step);
    TotalUpdate(s.sh.files, 0, OnSubmit(s.sh.files, FILE)[0]);
  }

  lemma {:induction false} FilledUp(c: Config, n: nat) returns (s: System)
    requires c.Valid() && c.fileCapacity > 0 && VectorsExist(c) && n <= c.capacity
    ensures Brimming(c, s, n, c.writeSlots, c.writeSlots)
  {
    hide Brimming, VectorsExist;
    if n == 0 {
      s := SlotsTaken(c, c.writeSlots);
      s := Passed(c, s, c.writeSlots, c.writeSlots);
    } else {
      s := FilledUp(c, n - 1);
      s := AddOne(c, s, n - 1);
    }
  }

  /** With the driver full and no staging slot free, the caller pumps the vector read, which ends
      short, into the backlog. */
  lemma PumpedShort(c: Config, s: System) returns (s': System)
    requires c.Valid() && c.eager && Brimming(c, s, c.capacity, c.writeSlots, c.writeSlots)
    ensures Reachable(c, s') && Retained(s') == c.capacity + 1 && Taken(s', c.writeSlots)
  {
    hide Finish;
    var token := TokenAt(s.sh.slots, s.sh.ready[0]);
    NoAssertFires(c, s, Prepare);
    ReachableStep(c, s, Prepare);
    var s1 := Apply(c, s, Prepare);
    var step := Publish(token, Ok(1), true);
    assert EntryAt(s1.sh.slots, token.slot).requestedLen == 2 * c.granule;
    NoAssertFires(c, s1, step);
    ReachableStep(c, s1, step);
    s' := Apply(c, s1, step);
    ShortKeeps(c, s1.(executing := {}), token.slot, Ok(1));
  }

  /** A read that ends short stays where it is. */
  lemma ShortKeeps(c: Config, s: System, slot: nat, outcome: Outcome)
    requires c.granule > 0 && Occupied(s.sh.slots, slot) && EndingOf(EntryAt(s.sh.slots, slot), outcome).Partial?
    ensures var f := Finish(c, s, slot, outcome);
            f.sh.files == s.sh.files && f.sh.deferred == s.sh.deferred && f.arena == s.arena
  {
  }

  /** The exact condition: a configuration lets the sum exceed the capacity if and only if it is that
      of an eager driver with room for a file and for two frames in a vector. */
  lemma RetainedCanExceedIff(c: Config)
    requires c.Valid()
    ensures (exists s :: Reachable(c, s) && Retained(s) > c.capacity)
            <==> c.eager && c.fileCapacity > 0 && VectorsExist(c)
  {
    if c.eager && c.fileCapacity > 0 && VectorsExist(c) {
      var s := FilledUp(c, c.capacity);
      s := PumpedShort(c, s);
    } else {
      forall s | Reachable(c, s) ensures Retained(s) <= c.capacity {
        if VectorsExist(c) {
          CapacityHolds(c, s);
          BacklogStaysEmpty(c, s);
        } else {
          NoVectorsNoScatter(c, s);
          PointOperationsFit(c, s);
        }
      }
    }
  }

  // ---------------------------------------------------------------- no room for a vector

  lemma StepScattersNothing(c: Config, s: System, step: Step)
    requires c.Valid() && !VectorsExist(c) && Offered(c, s, step) && AssertsHold(c, s, step)
    ensures Apply(c, s, step).hist.scattered == s.hist.scattered
  {
    hide Apply, VectorFrames, VectorsExist, AssertsHold;
    VectorsExistIff(c);
    ScatteredGrows(c, s, step);
  }

  lemma {:induction false} RunScattersNothing(c: Config, s: System, steps: seq<Step>, t: System)
    requires !VectorsExist(c) && s.hist.scattered == {} && Run(c, s, steps, t)
    ensures t.hist.scattered == {}
    decreases |steps|
  {
    hide Apply, AssertsHold, Exhausted, Offered, VectorsExist;
    if steps != [] {
      StepScattersNothing(c, s, steps[0]);
      RunScattersNothing(c, Apply(c, s, steps[0]), steps[1..], t);
    }
  }

  /** Where no vector can be built, none is ever submitted. */
  lemma NoVectorsNoScatter(c: Config, s: System)
    requires Reachable(c, s) && !VectorsExist(c)
    ensures s.hist.scattered == {}
  {
    var steps :| Run(c, Init(c), steps, s);
    RunScattersNothing(c, Init(c), steps, s);
  }

  // ---------------------------------------------------------------- point operations alone

  /** Only vector reads wait in the backlog with a lease. */
  ghost predicate LeasesAreScattered(s: System) {
    forall k | 0 <= k < |s.sh.backlog| && s.sh.backlog[k].lease.Some? :: s.sh.backlog[k].token in s.hist.scattered
  }

  lemma ScatteredGrows(c: Config, s: System, step: Step)
    requires c.Valid() && Offered(c, s, step) && AssertsHold(c, s, step)
    ensures s.hist.scattered <= Apply(c, s, step).hist.scattered
    ensures !(step.Submit? && step.req.VectorRequest?) ==>
              Apply(c, s, step).hist.scattered == s.hist.scattered
  {
    hide Finish, GiveBack;
    match step
    case Reap =>
      var slot := s.cq[0].token.slot;
      var p := RingProgress(EntryAt(s.sh.slots, slot), s.cq[0].raw, c.retryBound).1;
      if p.Finished? { FinishScatters(c, s.(cq := s.cq[1..]), slot, p.outcome); }
    case Publish(token, outcome, _) => FinishScatters(c, s.(executing := s.executing - {token}), token.slot, outcome);
    case DropLease(token) => if Contains(s.sh.slots, token) { GiveBackScatters(c, s, token.slot); }
    case Abandon(slot) => GiveBackScatters(c, s, slot);
    case _ =>
  }

  lemma FinishScatters(c: Config, s: System, slot: nat, outcome: Outcome)
    requires c.granule > 0 && Occupied(s.sh.slots, slot)
    requires EndingOf(EntryAt(s.sh.slots, slot), outcome).Freed? ==>
               CanComplete(s.sh.files, EntryAt(s.sh.slots, slot).fd)
    ensures Finish(c, s, slot, outcome).hist.scattered == s.hist.scattered
  {
  }

  lemma GiveBackScatters(c: Config, s: System, slot: nat)
    requires IsHeld(s.sh.slots, slot) && CanComplete(s.sh.files, EntryAt(s.sh.slots, slot).fd)
    ensures GiveBack(c, s, slot).hist.scattered == s.hist.scattered
  {
  }

  lemma StepScattered(c: Config, s: System, step: Step)
    requires Reachable(c, s) && Offered(c, s, step) && AssertsHold(c, s, step) && LeasesAreScattered(s)
    ensures LeasesAreScattered(Apply(c, s, step))
  {
    hide Apply;
    hide SlabOk, EntriesOk, ReadyOk, FlightOk, LeaseOk, FilesOk, RetireOk, BackendOk, KnownOk, ArenaOk, RoomOk,
         TokensOk, CloseOk;
    ReachableInv(c, s);
    ScatteredGrows(c, s, step);
    BacklogChange(c, s, step);
  }

  lemma {:induction false} RunScattered(c: Config, s: System, steps: seq<Step>, t: System)
    requires Reachable(c, s) && LeasesAreScattered(s) && Run(c, s, steps, t)
    ensures LeasesAreScattered(t)
    decreases |steps|
  {
    hide Apply, AssertsHold, Exhausted, Offered, Reachable, LeasesAreScattered;
    if steps != [] {
      StepScattered(c, s, steps[0]);
      ReachableStep(c, s, steps[0]);
      RunScattered(c, Apply(c, s, steps[0]), steps[1..], t);
    }
  }

  /** As long as no vector read was ever submitted, every retained completion counted, the sum stays
      within the capacity, teardown included. */
  lemma PointOperationsFit(c: Config, s: System)
    requires Reachable(c, s) && s.hist.scattered == {}
    ensures Retained(s) <= c.capacity
  {
    var steps :| Run(c, Init(c), steps, s);
    assert Run(c, Init(c), [], Init(c));
    RunScattered(c, Init(c), steps, s);
    NaiveSum(c, s);
    CountNone(s.sh.backlog, Leased());
  }
}
