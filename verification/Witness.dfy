/** A concrete run of the eager backend: with every staging slot taken, a caller that wants one pumps
    a pool's vector read, which ends short, into the backlog; the driver is then dropped with another
    operation still queued. It shows two things the code does not guarantee. */
module Witness {
  import opened Types
  import opened Ops
  import opened Core
  import opened Invariant
  import opened PreserveLease
  import opened Theorems
  import opened Teardown

  const CONFIG: Config := Config(2, 0, 1, 1, 4096, 2, true)
  const FILE: FileId := FileId(0, 1)
  const VECTOR_TOKEN: OpToken := OpToken(0, 1)

  const VECTOR_READ: Request := VectorRequest(FILE, 0, 2, Pool)
  const SHORT: Completion := Completion(VECTOR_TOKEN, Read, Ok(4096), Some(Lease(4096, true)))

  /** The two operations as their slots store them: queued, and the vector read once half done. */
  const QUEUED: Entry := Entry(Read, FILE, 0, true, true, 0, 8192, Pool, None, 0, Queued)
  const HALFWAY: Entry := Entry(Read, FILE, 4096, true, false, 0, 4096, Pool, None, 0, Continuation)
  const FSYNC: Entry := Entry(Fsync, FILE, 0, false, false, 0, 0, Absent, None, 0, Queued)

  /** The one staging slot is taken, and a caller has looked for it in vain. */
  predicate Starved(s: System) {
    s.arena == [false] && s.seekers == multiset{1}
  }

  /** A file is open and registered. */
  lemma Opened() returns (s: System)
    ensures Reachable(CONFIG, s) && !s.tearing && FILE in s.known && s.executing == {}
    ensures s.arena == [true] && s.seekers == multiset{}
    ensures s.sh == Shared([SlabSlot(0, None), SlabSlot(0, None)], [1, 0], [FileSlot(1, Open, 0)], [], [], [])
  {
    var c, s0 := CONFIG, Init(CONFIG);
    assert Empty(2, SlabSlot(0, None)) == [SlabSlot(0, None), SlabSlot(0, None)];
    assert Descending(2) == [1, 0];
    assert Empty(1, FileSlot(0, Free, 0)) == [FileSlot(0, Free, 0)];
    assert Empty(1, true) == [true];
    assert Run(c, s0, [], s0);
    var s1 := Apply(c, s0, ReserveFile);
    assert s1.sh.files == [FileSlot(1, Open, 0)];
    ReachableStep(c, s0, ReserveFile);
    s := Apply(c, s1, RegisterFile(FILE));
    ReachableStep(c, s1, RegisterFile(FILE));
  }

  lemma SlotTaken() returns (s: System)
    ensures Reachable(CONFIG, s) && !s.tearing && FILE in s.known && s.executing == {}
    ensures s.arena == [false] && s.seekers == multiset{}
    ensures s.sh == Shared([SlabSlot(0, None), SlabSlot(0, None)], [1, 0], [FileSlot(1, Open, 0)], [], [], [])
  {
    var s0 := Opened();
    ReachableStep(CONFIG, s0, Seek);
    var s1 := Apply(CONFIG, s0, Seek);
    ReachableStep(CONFIG, s1, AllocWrite(0));
    s := Apply(CONFIG, s1, AllocWrite(0));
  }

  lemma Sought() returns (s: System)
    ensures Reachable(CONFIG, s) && !s.tearing && FILE in s.known && s.executing == {} && Starved(s)
    ensures s.sh == Shared([SlabSlot(0, None), SlabSlot(0, None)], [1, 0], [FileSlot(1, Open, 0)], [], [], [])
  {
    var s0 := SlotTaken();
    ReachableStep(CONFIG, s0, Seek);
    var s1 := Apply(CONFIG, s0, Seek);
    ReachableStep(CONFIG, s1, Skip(0));
    s := Apply(CONFIG, s1, Skip(0));
  }

  lemma FirstSubmitted() returns (s: System)
    ensures Reachable(CONFIG, s) && !s.tearing && FILE in s.known && s.executing == {} && Starved(s)
    ensures s.sh == Shared([SlabSlot(1, Some(QUEUED)), SlabSlot(0, None)], [1], [FileSlot(1, Open, 1)], [0], [], [])
  {
    var s0 := Sought();
    assert TotalInflight(s0.sh.files) == 0;
    s := Apply(CONFIG, s0, Submit(VECTOR_READ, 0));
    ReachableStep(CONFIG, s0, Submit(VECTOR_READ, 0));
  }

  /** The vector read and the barrier are queued. */
  lemma Submitted() returns (s: System)
    ensures Reachable(CONFIG, s) && !s.tearing && s.executing == {} && Starved(s)
    ensures s.sh == Shared([SlabSlot(1, Some(QUEUED)), SlabSlot(1, Some(FSYNC))], [],
                           [FileSlot(1, Open, 2)], [0, 1], [], [])
  {
    var s0 := FirstSubmitted();
    assert TotalInflight(s0.sh.files) == 1;
    s := Apply(CONFIG, s0, Submit(FsyncRequest(FILE), 1));
    ReachableStep(CONFIG, s0, Submit(FsyncRequest(FILE), 1));
  }

  /** The caller still without a staging slot pumps. */
  lemma Executing() returns (s: System)
    ensures Reachable(CONFIG, s) && !s.tearing && s.executing == {VECTOR_TOKEN} && Starved(s)
    ensures s.sh == Shared([SlabSlot(1, Some(QUEUED.(state := Active, frame := false))), SlabSlot(1, Some(FSYNC))],
                           [], [FileSlot(1, Open, 2)], [1], [], [])
  {
    var s0 := Submitted();
    s := Apply(CONFIG, s0, Prepare);
    ReachableStep(CONFIG, s0, Prepare);
  }

  /** The vector read was pumped into the backlog half done: its completion waits there while its
      operation still counts as in flight. */
  lemma Pumped() returns (s: System)
    ensures Reachable(CONFIG, s) && !s.tearing && s.arena == [false]
    ensures s.sh == Shared([SlabSlot(1, Some(HALFWAY)), SlabSlot(1, Some(FSYNC))], [],
                           [FileSlot(1, Open, 2)], [1], [SHORT], [])
  {
    var s0 := Executing();
    s := Apply(CONFIG, s0, Publish(VECTOR_TOKEN, Ok(4096), true));
    ReachableStep(CONFIG, s0, Publish(VECTOR_TOKEN, Ok(4096), true));
  }

  /** In-flight operations plus all retained completions can exceed the capacity: admission then
      counts the half-done read twice. `NaiveSum` bounds the excess by the leased completions. */
  lemma NaiveSumCanExceedCapacity() returns (s: System)
    ensures Reachable(CONFIG, s) && s.arena == [false]
    ensures TotalInflight(s.sh.files) + |s.sh.backlog| + |s.sh.deferred| == CONFIG.capacity + 1
  {
    s := Pumped();
    assert TotalInflight(s.sh.files) == 2;
  }

  lemma Abandoned() returns (s: System)
    ensures Reachable(CONFIG, s) && s.tearing && s.sh.backlog == [SHORT]
    ensures s.sh.slots == [SlabSlot(1, None), SlabSlot(1, Some(FSYNC))] && s.sh.files == [FileSlot(1, Open, 1)]
  {
    var s0 := Pumped();
    var s1 := Apply(CONFIG, s0, Teardown);
    ReachableStep(CONFIG, s0, Teardown);
    s := Apply(CONFIG, s1, Abandon(0));
    ReachableStep(CONFIG, s1, Abandon(0));
  }

  /** Teardown abandons the half-done read, then drains its completion out of the backlog with the
      barrier still in flight, and would continue it: the generation assert fires. */
  lemma TeardownCanContinueAnAbandonedRead() returns (s: System)
    ensures Reachable(CONFIG, s) && s.tearing && TotalInflight(s.sh.files) > 0
    ensures Offered(CONFIG, s, Continue(VECTOR_TOKEN)) && !AssertsHold(CONFIG, s, Continue(VECTOR_TOKEN))
  {
    var s0 := Abandoned();
    assert TotalInflight(s0.sh.files) == 1;
    s := Apply(CONFIG, s0, Drain);
    ReachableStep(CONFIG, s0, Drain);
  }

  /** The system after the first `n` completions left the backlog. */
  ghost function Drains(c: Config, s: System, n: nat): (u: System)
    requires c.Valid() && n <= |s.sh.backlog|
    ensures u.sh == s.sh.(backlog := s.sh.backlog[n..]) && u.tearing == s.tearing
    decreases n
  {
    if n == 0 then s else Drains(c, Apply(c, s, Drain), n - 1)
  }

  lemma {:induction false} DrainsReachable(c: Config, s: System, n: nat)
    requires Reachable(c, s) && n <= |s.sh.backlog|
    ensures Reachable(c, Drains(c, s, n))
    decreases n
  {
    if n > 0 {
      ReachableStep(c, s, Drain);
      DrainsReachable(c, Apply(c, s, Drain), n - 1);
    }
  }

  /** Once teardown has abandoned every held read, each leased completion it drains, wherever it
      stands in the backlog, meets the failing assert if and only if it is a partial read. */
  lemma ContinuingFiresIffPartial(c: Config, s: System, k: nat)
    requires Reachable(c, s) && s.tearing && (forall i: nat :: !IsHeld(s.sh.slots, i))
    requires k < |s.sh.backlog| && s.sh.backlog[k].lease.Some?
    ensures var u, step := Apply(c, Drains(c, s, k), Drain), Continue(s.sh.backlog[k].token);
            Resumable(s.sh.backlog[k]) <==> Offered(c, u, step) && !AssertsHold(c, u, step)
  {
    var u := Drains(c, s, k);
    DrainsReachable(c, s, k);
    assert u.sh.backlog[0] == s.sh.backlog[k];
    FirstFiresIffPartial(c, u);
  }

  lemma FirstFiresIffPartial(c: Config, s: System)
    requires Reachable(c, s) && s.tearing && (forall i: nat :: !IsHeld(s.sh.slots, i))
    requires s.sh.backlog != [] && s.sh.backlog[0].lease.Some?
    ensures var u, step := Apply(c, s, Drain), Continue(s.sh.backlog[0].token);
            Resumable(s.sh.backlog[0]) <==> Offered(c, u, step) && !AssertsHold(c, u, step)
  {
    hide SlabOk, EntriesOk, ReadyOk, FlightOk, LeaseOk, FilesOk, RetireOk, BackendOk, KnownOk, ArenaOk, RoomOk,
         TokensOk, ScatterOk, CloseOk;
    ReachableInv(c, s);
    ReachableBacklog(c, s);
    assert !IsHeld(s.sh.slots, s.sh.backlog[0].token.slot);
    LeaseAbandoned(s.sh.slots, s.sh.backlog, s.held, s.tearing, 0);
  }
}
