/** What every reachable state of the driver satisfies, stated as conservation: each slot, token,
    lease, staging slot and file generation is accounted for exactly once. */
module Invariant {
  import opened Types
  import opened Counting
  import opened Ops
  import opened Core

  // ---------------------------------------------------------------- named counters

  function Filled(): SlabSlot -> bool { (x: SlabSlot) => x.payload.Some? }
  function Waiting(): SlabSlot -> bool { (x: SlabSlot) => x.payload.Some? && x.payload.value.state.Queued? }
  function Leaving(): SlabSlot -> bool { (x: SlabSlot) => x.payload.Some? && x.payload.value.state.Held() }
  function OnFile(f: nat): SlabSlot -> bool { (x: SlabSlot) => x.payload.Some? && x.payload.value.fd.slot == f }
  function OnWrite(w: nat): SlabSlot -> bool {
    (x: SlabSlot) => x.payload.Some? && x.payload.value.writeSlot == Some(w)
  }
  function Echoes(t: OpToken): Cqe -> bool { (x: Cqe) => x.token == t }
  function Leased(): Completion -> bool { (x: Completion) => x.lease.Some? }
  function Final(): Completion -> bool { (x: Completion) => x.lease.None? }
  function LeaseOf(t: OpToken): Completion -> bool { (x: Completion) => x.lease.Some? && x.token == t }
  function RetireOf(id: FileId): Deferred -> bool { (x: Deferred) => x.retire && x.fd == id }

  // ---------------------------------------------------------------- the parts

  ghost predicate SlabOk(c: Config, slots: seq<SlabSlot>, free: seq<nat>) {
    && |slots| == c.capacity
    && (forall k | 0 <= k < |free| :: free[k] < |slots|)
    && (forall i: nat | i < |slots| :: Count(free, Is(i)) == One(slots[i].payload.None?))
    && |free| + Count(slots, Filled()) == c.capacity
    && (forall i: nat | i < |slots| :: slots[i].generation <= U32_MAX)
  }

  /** The shape of one stored operation; in particular a write's tail always reaches to the end of
      its staging slot, and a read keeps its destination exactly while it may be issued again. */
  predicate EntryOk(c: Config, e: Entry) {
    && e.retries <= c.retryBound
    && (e.kind.Write? <==> e.writeSlot.Some?)
    && (e.kind.Write? ==> e.writeSlot.value < c.writeSlots && e.destinationOffset + e.requestedLen == c.granule)
    && (e.kind.Fsync? ==> e.requestedLen == 0)
    && (e.kind.Read? <==> !e.lease.Absent?)
    && (e.vector ==> e.kind.Read?)
    && (e.kind.Read? && (e.state.Queued? || (e.state.Active? && !c.eager)) ==> e.frame)
    && (e.state.Held() ==> e.vector && !e.frame)
    && (e.state.Continuation? ==> e.requestedLen > 0)
  }

  ghost predicate EntriesOk(c: Config, slots: seq<SlabSlot>) {
    forall i: nat | Occupied(slots, i) :: EntryOk(c, slots[i].payload.value)
  }

  /** A slot is in the ready order once if it is queued and not at all otherwise. */
  ghost predicate ReadyOk(slots: seq<SlabSlot>, ready: seq<nat>) {
    && (forall i: nat :: Count(ready, Is(i)) == One(InState(slots, i, Queued)))
    && |ready| == Count(slots, Waiting())
  }

  predicate ActiveToken(slots: seq<SlabSlot>, t: OpToken) {
    Contains(slots, t) && slots[t.slot].payload.value.state.Active?
  }

  function Outstanding(executing: set<OpToken>, cq: seq<Cqe>, t: OpToken): nat {
    One(t in executing) + Count(cq, Echoes(t))
  }

  /** An active operation has exactly one attempt or completion entry outstanding, under its live
      token; no other token has any. */
  ghost predicate FlightOk(slots: seq<SlabSlot>, executing: set<OpToken>, cq: seq<Cqe>) {
    && (forall t: OpToken :: Outstanding(executing, cq, t) == One(ActiveToken(slots, t)))
    && (forall k: nat | k < |cq| ::
       ActiveToken(slots, cq[k].token) ==> RawFits(slots[cq[k].token.slot].payload.value, cq[k].raw))
  }

  predicate HeldToken(slots: seq<SlabSlot>, t: OpToken) {
    Contains(slots, t) && slots[t.slot].payload.value.state.Held()
  }

  function Leases(held: map<OpToken, Lease>, backlog: seq<Completion>, t: OpToken): nat {
    One(t in held) + Count(backlog, LeaseOf(t))
  }

  predicate Matches(l: Lease, e: Entry) {
    l.more == e.state.Continuation? && (l.more ==> l.remaining == e.requestedLen)
  }

  /** A held operation has exactly one lease, with a caller or in the backlog, that fits its entry.
      Only a lease abandoned by teardown outlives its operation. */
  ghost predicate LeaseOk(slots: seq<SlabSlot>, backlog: seq<Completion>, held: map<OpToken, Lease>, tearing: bool) {
    && (forall t: OpToken ::
          && Leases(held, backlog, t) <= One(t.slot < |slots|)
          && (HeldToken(slots, t) ==> Leases(held, backlog, t) == 1)
          && (!HeldToken(slots, t) && (Contains(slots, t) || !tearing) ==> Leases(held, backlog, t) == 0))
    && (forall t | t in held && HeldToken(slots, t) :: Matches(held[t], slots[t.slot].payload.value))
    && (forall k: nat | k < |backlog| && backlog[k].lease.Some? && HeldToken(slots, backlog[k].token) ::
          Matches(backlog[k].lease.value, slots[backlog[k].token.slot].payload.value))
  }

  predicate Serving(f: FileSlot) { f.state.Open? || f.state.Closing? }

  /** Every operation names a serving file's current generation, and each file's in-flight count is
      the number of operations that name it. */
  ghost predicate FilesOk(slots: seq<SlabSlot>, files: seq<FileSlot>) {
    && (forall i: nat | Occupied(slots, i) ::
          Current(files, slots[i].payload.value.fd) && Serving(files[slots[i].payload.value.fd.slot]))
    && (forall f: nat | f < |files| :: files[f].inflight == Count(slots, OnFile(f)))
    && TotalInflight(files) == Count(slots, Filled())
  }

  function Retiring(deferred: seq<Deferred>, due: set<FileId>, cleared: set<FileId>, id: FileId): nat {
    One(id in due) + One(id in cleared) + Count(deferred, RetireOf(id))
  }

  /** A drained closing file is being retired in exactly one place; no other file is. */
  ghost predicate RetireOk(files: seq<FileSlot>, deferred: seq<Deferred>, due: set<FileId>, cleared: set<FileId>) {
    forall id: FileId :: Retiring(deferred, due, cleared, id) == One(Drained(files, id))
  }

  function IdAt(files: seq<FileSlot>, f: nat): FileId
    requires f < |files|
  {
    FileId(f, files[f].generation)
  }

  /** The backend holds the current generation of a file from registration to retirement. */
  predicate Backed(files: seq<FileSlot>, handles: set<FileId>, cleared: set<FileId>, f: nat)
    requires f < |files|
  {
    IdAt(files, f) in handles || (files[f].state.Closing? && IdAt(files, f) !in cleared)
  }

  ghost predicate BackendOk(c: Config, files: seq<FileSlot>, opening: set<FileId>, handles: set<FileId>,
                            known: set<FileId>, registered: seq<Option<nat>>, cleared: set<FileId>) {
    && |registered| == |files| == c.fileCapacity
    && (forall f: nat | f < |files| ::
          registered[f] == if Backed(files, handles, cleared, f) then Some(files[f].generation) else None)
    && (forall f: nat | f < |files| && Reusable(files[f]) :: files[f].inflight == 0)
    && (forall id | id in opening :: IsLive(files, id) && id !in known && files[id.slot].inflight == 0)
    && (forall id | id in handles :: IsLive(files, id) && id in known)
    && (forall f: nat | f < |files| && files[f].state.Open? :: IdAt(files, f) in opening || IdAt(files, f) in handles)
    && (forall id | id in known :: id.slot < |files| && id.generation <= files[id.slot].generation)
  }

  /** Every operation was submitted under a handle that had been returned. */
  ghost predicate KnownOk(slots: seq<SlabSlot>, known: set<FileId>) {
    forall i: nat | Occupied(slots, i) :: slots[i].payload.value.fd in known
  }

  /** A staging slot is taken exactly while one caller or one operation has it. */
  ghost predicate ArenaOk(c: Config, slots: seq<SlabSlot>, arena: seq<bool>, owned: set<nat>) {
    && |arena| == c.writeSlots
    && (forall w | w in owned :: w < |arena|)
    && (forall w: nat | w < |arena| :: One(w in owned) + Count(slots, OnWrite(w)) == One(!arena[w]))
  }

  /** Operations, final completions waiting in the backlog and deferred ones share the capacity.
      A leased backlog completion is not counted: its operation still is. */
  ghost predicate RoomOk(c: Config, slots: seq<SlabSlot>, backlog: seq<Completion>, deferred: seq<Deferred>,
                         held: map<OpToken, Lease>, tearing: bool) {
    && Count(slots, Filled()) + Count(backlog, Final()) + |deferred| <= c.capacity
    && (!tearing ==> Count(backlog, Leased()) + |held| == Count(slots, Leaving()))
  }

  predicate Over(slots: seq<SlabSlot>, t: OpToken) {
    !Contains(slots, t) || slots[t.slot].payload.value.state.Terminal?
  }

  /** Tokens are exactly the fills so far. */
  ghost predicate IssuedOk(slots: seq<SlabSlot>, issued: set<OpToken>) {
    && (forall t: OpToken ::
          t in issued <==> t.slot < |slots| && 1 <= t.generation <= slots[t.slot].generation)
    && (forall i: nat | Occupied(slots, i) :: slots[i].generation >= 1)
  }

  /** A token's slot was freed once if the operation left it, and not before. */
  ghost predicate FreedOk(slots: seq<SlabSlot>, issued: set<OpToken>, freed: multiset<OpToken>) {
    forall t: OpToken :: freed[t] == One(t in issued && !Contains(slots, t))
  }

  /** An operation that is over had exactly one end: a terminal result, or a partial read that was
      given up. One that is not over had none. */
  ghost predicate EndedOk(slots: seq<SlabSlot>, issued: set<OpToken>, ended: multiset<OpToken>,
                          dropped: multiset<OpToken>) {
    forall t: OpToken :: ended[t] + dropped[t] == One(t in issued && Over(slots, t))
  }

  /** Only a vector read can be given up part way. */
  ghost predicate ScatterOk(slots: seq<SlabSlot>, issued: set<OpToken>, scattered: set<OpToken>,
                            dropped: multiset<OpToken>) {
    && scattered <= issued
    && (forall t: OpToken | Contains(slots, t) :: t in scattered <==> slots[t.slot].payload.value.vector)
    && (forall t: OpToken | dropped[t] > 0 :: t in scattered)
  }

  ghost predicate TokensOk(slots: seq<SlabSlot>, issued: set<OpToken>, ended: multiset<OpToken>,
                           dropped: multiset<OpToken>, freed: multiset<OpToken>) {
    && IssuedOk(slots, issued)
    && FreedOk(slots, issued, freed)
    && EndedOk(slots, issued, ended, dropped)
  }

  predicate Draining(files: seq<FileSlot>, id: FileId) {
    Current(files, id) && files[id.slot].state.Closing? && files[id.slot].inflight > 0
  }

  predicate Gone(files: seq<FileSlot>, id: FileId) {
    id.slot < |files| && IsClosed(files, id)
  }

  /** A closed file became due exactly when it stopped draining, and its retirement finished
      exactly when it reads as closed. */
  ghost predicate CloseOk(files: seq<FileSlot>, closed: set<FileId>, due: multiset<FileId>, retired: multiset<FileId>) {
    && (forall id | id in closed :: Gone(files, id) || (Current(files, id) && files[id.slot].state.Closing?))
    && (forall f: nat | f < |files| && (files[f].state.Closing? || files[f].state.Closed?) :: IdAt(files, f) in closed)
    && (forall id: FileId :: due[id] == One(id in closed && !Draining(files, id)))
    && (forall id: FileId :: retired[id] == One(id in closed && Gone(files, id)))
  }

  ghost predicate Inv(c: Config, s: System) {
    && SlabOk(c, s.sh.slots, s.sh.free)
    && EntriesOk(c, s.sh.slots)
    && ReadyOk(s.sh.slots, s.sh.ready)
    && FlightOk(s.sh.slots, s.executing, s.cq)
    && LeaseOk(s.sh.slots, s.sh.backlog, s.held, s.tearing)
    && FilesOk(s.sh.slots, s.sh.files)
    && RetireOk(s.sh.files, s.sh.deferred, s.due, s.cleared)
    && BackendOk(c, s.sh.files, s.opening, s.handles, s.known, s.registered, s.cleared)
    && KnownOk(s.sh.slots, s.known)
    && ArenaOk(c, s.sh.slots, s.arena, s.owned)
    && RoomOk(c, s.sh.slots, s.sh.backlog, s.sh.deferred, s.held, s.tearing)
    && TokensOk(s.sh.slots, s.hist.issued, s.hist.ended, s.hist.dropped, s.hist.freed)
    && ScatterOk(s.sh.slots, s.hist.issued, s.hist.scattered, s.hist.dropped)
    && CloseOk(s.sh.files, s.hist.closed, s.hist.due, s.hist.retired)
  }
}
