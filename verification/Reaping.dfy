/** Reaping the completion queue: one pass, and the code's two passes around the retire scratch. */
module Reaping {
  import opened Types
  import opened Ops
  import opened Core
  import opened Invariant
  import opened PreserveFiles
  import opened Theorems
  import opened Runs

  /** Reaping the head of the queue is always possible and keeps the run going. */
  lemma ReapIsSafe(c: Config, s: System)
    requires Reachable(c, s) && !c.eager && s.cq != []
    ensures c.Valid() && Offered(c, s, Reap) && AssertsHold(c, s, Reap) && !Exhausted(c, s, Reap)
    ensures Reachable(c, Apply(c, s, Reap))
  {
    hide Inv, Apply, AssertsHold;
    NoAssertFires(c, s, Reap);
    ReachableStep(c, s, Reap);
  }

  /** What one completion entry gives the caller: nothing if it is retryable, else a completion. */
  function Emitted(c: Config, s: System): (r: seq<Completion>)
    requires Offered(c, s, Reap) && AssertsHold(c, s, Reap)
  {
    var e := EntryAt(s.sh.slots, s.cq[0].token.slot);
    match RingProgress(e, s.cq[0].raw, c.retryBound).1
    case Resubmit => []
    case Finished(outcome) => [CompletionOf(s.cq[0].token, e, outcome)]
  }

  /** The file one completion entry leaves due for retirement, if any. */
  function RetireDueAt(c: Config, s: System): (r: seq<FileId>)
    requires Offered(c, s, Reap) && AssertsHold(c, s, Reap)
  {
    var e := EntryAt(s.sh.slots, s.cq[0].token.slot);
    match RingProgress(e, s.cq[0].raw, c.retryBound).1
    case Resubmit => []
    case Finished(outcome) =>
      if EndingOf(e, outcome).Freed? && Drained(OnComplete(s.sh.files, e.fd), e.fd) then [e.fd] else []
  }

  datatype Harvest = Harvest(s: System, done: seq<Completion>, retires: seq<FileId>, count: nat)

  function Join(a: Harvest, b: Harvest): Harvest {
    Harvest(b.s, a.done + b.done, a.retires + b.retires, a.count + b.count)
  }

  /** One locked pass over the queue, up to `limit` entries; `stop` ends it at the first file that
      becomes due for retirement. */
  ghost function Pass(c: Config, s: System, limit: nat, stop: bool): (h: Harvest)
    requires Reachable(c, s) && !c.eager
    decreases limit
  {
    if limit == 0 || s.cq == [] then Harvest(s, [], [], 0)
    else
      ReapIsSafe(c, s);
      var here := Harvest(Apply(c, s, Reap), Emitted(c, s), RetireDueAt(c, s), 1);
      if stop && here.retires != [] then here
      else Join(here, Pass(c, here.s, limit - 1, stop))
  }

  lemma {:induction false} PassFacts(c: Config, s: System, limit: nat, stop: bool)
    requires Reachable(c, s) && !c.eager
    ensures var h := Pass(c, s, limit, stop);
            && Reachable(c, h.s) && h.s.tearing == s.tearing && h.s.executing == s.executing
            && h.s.sh.backlog == s.sh.backlog && h.s.sh.deferred == s.sh.deferred
            && |h.done| <= h.count <= limit
            && h.count <= |s.cq| && (limit > 0 && s.cq != [] ==> h.count > 0)
            && (!stop || h.retires == [] ==> h.count == limit || h.s.cq == [])
            && (stop ==> |h.retires| <= 1)
    decreases limit
  {
    hide Apply, AssertsHold, Offered, Exhausted, Reachable;
    if limit > 0 && s.cq != [] {
      ReapIsSafe(c, s);
      ReapPops(c, s);
      PassFacts(c, Apply(c, s, Reap), limit - 1, stop);
    }
  }

  lemma ReapPops(c: Config, s: System)
    requires c.Valid() && Offered(c, s, Reap) && AssertsHold(c, s, Reap)
    ensures Apply(c, s, Reap).cq == s.cq[1..]
    ensures Apply(c, s, Reap).tearing == s.tearing && Apply(c, s, Reap).executing == s.executing
    ensures Apply(c, s, Reap).sh.backlog == s.sh.backlog && Apply(c, s, Reap).sh.deferred == s.sh.deferred
    ensures |Emitted(c, s)| <= 1 && |RetireDueAt(c, s)| <= 1
  {
  }

  /** A pass that stops at the first retirement, followed by the rest with what is left of the
      limit, gives the same completions in the same order as one uninterrupted pass. */
  lemma {:induction false} TwoPassesAreOne(c: Config, s: System, limit: nat)
    requires Reachable(c, s) && !c.eager
    ensures var first := Pass(c, s, limit, true);
            && first.count <= limit && Reachable(c, first.s)
            && Pass(c, s, limit, false)
               == if first.retires == [] then first
                  else Join(first, Pass(c, first.s, limit - first.count, false))
    decreases limit
  {
    hide Apply, AssertsHold, Offered, Exhausted, Reachable, Emitted, RetireDueAt;
    PassFacts(c, s, limit, true);
    if limit > 0 && s.cq != [] {
      ReapIsSafe(c, s);
      var here := Harvest(Apply(c, s, Reap), Emitted(c, s), RetireDueAt(c, s), 1);
      if here.retires == [] {
        TwoPassesAreOne(c, here.s, limit - 1);
        var first := Pass(c, here.s, limit - 1, true);
        PassFacts(c, here.s, limit - 1, true);
        if first.retires != [] {
          JoinAssociates(here, first, Pass(c, first.s, limit - 1 - first.count, false));
        }
      }
    }
  }

  /** With nothing left of the limit, a second pass adds nothing. */
  lemma JoinNothing(c: Config, h: Harvest, stop: bool)
    requires Reachable(c, h.s) && !c.eager
    ensures Join(h, Pass(c, h.s, 0, stop)) == h
  {
    assert h.done + [] == h.done && h.retires + [] == h.retires;
  }

  lemma JoinAssociates(x: Harvest, y: Harvest, z: Harvest)
    ensures Join(x, Join(y, z)) == Join(Join(x, y), z)
  {
    assert x.done + (y.done + z.done) == x.done + y.done + z.done;
    assert x.retires + (y.retires + z.retires) == x.retires + y.retires + z.retires;
  }

  /** The file a reap leaves due is newly due. */
  lemma ReapDue(c: Config, s: System)
    requires c.Valid() && Inv(c, s) && Offered(c, s, Reap) && AssertsHold(c, s, Reap)
    ensures var due := RetireDueAt(c, s);
            && Apply(c, s, Reap).due == s.due + (set id | id in due)
            && forall id | id in due :: id !in s.due
  {
    hide SlabOk, EntriesOk, ReadyOk, FlightOk, LeaseOk, FilesOk, RetireOk, BackendOk, KnownOk, ArenaOk, RoomOk,
         TokensOk, ScatterOk, CloseOk;
    var e := EntryAt(s.sh.slots, s.cq[0].token.slot);
    RetireFact(s.sh.files, s.sh.deferred, s.due, s.cleared);
    if RetireDueAt(c, s) != [] {
      assert RetireDueAt(c, s) == [e.fd] && !Drained(s.sh.files, e.fd);
    }
  }

  /** A pass records each file once, in the order they became due, and none that was due before;
      so the scratch list it fills stays within the file table. */
  lemma {:induction false} PassRetires(c: Config, s: System, limit: nat, stop: bool)
    requires Reachable(c, s) && !c.eager
    ensures var h := Pass(c, s, limit, stop);
            && (forall k | 0 <= k < |h.retires| :: h.retires[k] in h.s.due && h.retires[k] !in s.due)
            && (forall j, k | 0 <= j < k < |h.retires| :: h.retires[j] != h.retires[k])
            && h.s.due == s.due + (set id | id in h.retires)
    decreases limit
  {
    hide Apply, AssertsHold, Offered, Exhausted, Reachable, Inv, Emitted, RetireDueAt;
    if limit > 0 && s.cq != [] {
      ReapIsSafe(c, s);
      ReapPops(c, s);
      ReachableInv(c, s);
      ReapDue(c, s);
      var here := Harvest(Apply(c, s, Reap), Emitted(c, s), RetireDueAt(c, s), 1);
      PassRetires(c, here.s, limit - 1, stop);
    }
  }

  /** A pass reduces the remaining work by at least one for each entry it reaps. */
  lemma {:induction false} PassWork(c: Config, s: System, limit: nat, stop: bool)
    requires Reachable(c, s) && !c.eager
    ensures var h := Pass(c, s, limit, stop);
            Work(h.s.sh.slots, c.retryBound) + h.count <= Work(s.sh.slots, c.retryBound)
    decreases limit
  {
    hide Apply, AssertsHold, Offered, Exhausted, Reachable, Work;
    if limit > 0 && s.cq != [] {
      ReapIsSafe(c, s);
      ReapMakesProgress(c, s, Reap);
      PassWork(c, Apply(c, s, Reap), limit - 1, stop);
    }
  }
}
