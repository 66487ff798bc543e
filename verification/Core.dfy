/** The driver core as a state machine. `Shared` is what the submit mutex guards and each function
    on it is one locked region; `System` adds the parties around it (executor or kernel, callers
    holding leases, handles and staging slots, threads retiring files) and a history of the run. */
module Core {
  import opened Types
  import opened Ops

  datatype Config = Config(
    capacity: nat,       // operation slots, also the admission bound
    retryBound: nat,
    fileCapacity: nat,
    writeSlots: nat,
    granule: nat,        // bytes in one staging slot and one read frame
    frames: nat,         // read frames
    eager: bool)         // eager backend, or ring
  {
    /** What building a driver insists on. */
    predicate Valid() { 0 < capacity <= U32_MAX && granule >= SECTOR_BYTES && frames > 0 && writeSlots > 0 }
  }

  const SECTOR_BYTES: nat := 4096
  const VECTOR_FRAMES_MAX: nat := 32
  const VECTOR_BYTES_MAX: nat := 128 * 1024

  // ---------------------------------------------------------------- the guarded structures

  datatype SlabSlot = SlabSlot(generation: nat, payload: Option<Entry>)

  datatype FileState = Free | Open | Closing | Closed

  datatype FileSlot = FileSlot(generation: nat, state: FileState, inflight: nat)

  /** A read lease: what is left of the vector, and whether the completion was a partial one. */
  datatype Lease = Lease(remaining: nat, more: bool)

  datatype Completion = Completion(token: OpToken, kind: OpKind, outcome: Outcome, lease: Option<Lease>)

  datatype Deferred = Deferred(fd: FileId, retire: bool, outcome: Outcome)

  datatype Shared = Shared(
    slots: seq<SlabSlot>,
    free: seq<nat>,
    files: seq<FileSlot>,
    ready: seq<nat>,
    backlog: seq<Completion>,
    deferred: seq<Deferred>)

  // ---------------------------------------------------------------- slab

  predicate Occupied(slots: seq<SlabSlot>, i: nat) { i < |slots| && slots[i].payload.Some? }

  predicate InState(slots: seq<SlabSlot>, i: nat, state: OpState) {
    Occupied(slots, i) && slots[i].payload.value.state == state
  }

  predicate IsHeld(slots: seq<SlabSlot>, i: nat) {
    Occupied(slots, i) && slots[i].payload.value.state.Held()
  }

  function TokenAt(slots: seq<SlabSlot>, i: nat): OpToken
    requires i < |slots|
  {
    OpToken(i, slots[i].generation)
  }

  /** The token names the fill that occupies its slot right now. */
  predicate Contains(slots: seq<SlabSlot>, t: OpToken) {
    Occupied(slots, t.slot) && slots[t.slot].generation == t.generation
  }

  function EntryAt(slots: seq<SlabSlot>, i: nat): Entry
    requires Occupied(slots, i)
  {
    slots[i].payload.value
  }

  function SetEntry(slots: seq<SlabSlot>, i: nat, e: Entry): (r: seq<SlabSlot>)
    requires i < |slots|
  {
    slots[i := slots[i].(payload := Some(e))]
  }

  function Fill(slots: seq<SlabSlot>, i: nat, e: Entry): (r: seq<SlabSlot>)
    requires i < |slots|
  {
    slots[i := SlabSlot(slots[i].generation + 1, Some(e))]
  }

  function Vacate(slots: seq<SlabSlot>, i: nat): (r: seq<SlabSlot>)
    requires i < |slots|
  {
    slots[i := slots[i].(payload := None)]
  }

  // ---------------------------------------------------------------- file table

  predicate Current(files: seq<FileSlot>, id: FileId) {
    id.slot < |files| && files[id.slot].generation == id.generation
  }

  predicate IsLive(files: seq<FileSlot>, id: FileId) {
    Current(files, id) && files[id.slot].state.Open?
  }

  predicate IsClosed(files: seq<FileSlot>, id: FileId)
    requires id.slot < |files|
  {
    files[id.slot].generation > id.generation || (Current(files, id) && files[id.slot].state.Closed?)
  }

  function TotalInflight(files: seq<FileSlot>): nat {
    if files == [] then 0 else files[0].inflight + TotalInflight(files[1..])
  }

  predicate Reusable(f: FileSlot) { f.state.Free? || f.state.Closed? }

  /** The first slot `open` can take, or the table length when there is none. */
  function FirstReusable(files: seq<FileSlot>, from: nat): (i: nat)
    requires from <= |files|
    ensures from <= i <= |files|
    ensures forall k | from <= k < i :: !Reusable(files[k])
    ensures i < |files| ==> Reusable(files[i])
    decreases |files| - from
  {
    if from == |files| || Reusable(files[from]) then from else FirstReusable(files, from + 1)
  }

  function OpenFile(files: seq<FileSlot>, i: nat): (r: seq<FileSlot>)
    requires i < |files|
  {
    files[i := FileSlot(files[i].generation + 1, Open, 0)]
  }

  function OnSubmit(files: seq<FileSlot>, id: FileId): (r: seq<FileSlot>)
    requires id.slot < |files|
  {
    files[id.slot := files[id.slot].(inflight := files[id.slot].inflight + 1)]
  }

  function OnComplete(files: seq<FileSlot>, id: FileId): (r: seq<FileSlot>)
    requires id.slot < |files| && files[id.slot].inflight > 0
  {
    files[id.slot := files[id.slot].(inflight := files[id.slot].inflight - 1)]
  }

  /** A file is due for retirement once it is closing with nothing in flight. */
  predicate Drained(files: seq<FileSlot>, id: FileId) {
    Current(files, id) && files[id.slot].state.Closing? && files[id.slot].inflight == 0
  }

  function SetState(files: seq<FileSlot>, id: FileId, state: FileState): (r: seq<FileSlot>)
    requires id.slot < |files|
  {
    files[id.slot := files[id.slot].(state := state)]
  }

  // ---------------------------------------------------------------- admission

  datatype Request =
    | ReadRequest(fd: FileId, offset: nat, destinationOffset: nat, len: nat, lease: FrameLease)
    | VectorRequest(fd: FileId, offset: nat, frames: nat, lease: FrameLease)
    | WriteRequest(fd: FileId, offset: nat, writeSlot: nat)
    | FsyncRequest(fd: FileId)

  /** What the submit entry points demand of their callers before taking the lock. */
  predicate WellFormed(c: Config, req: Request) {
    match req
    case ReadRequest(_, _, destinationOffset, len, lease) =>
      len > 0 && !lease.Absent? && destinationOffset + len <= c.granule
    case VectorRequest(_, _, frames, lease) => !lease.Absent? && VectorFrames(c, frames)
    case WriteRequest(_, _, w) => w < c.writeSlots
    case FsyncRequest(_) => true
  }

  /** A vector has two to thirty-two distinct frames, each read whole, within the byte limit. */
  predicate VectorFrames(c: Config, frames: nat) {
    2 <= frames <= VECTOR_FRAMES_MAX && frames <= c.frames && frames * c.granule <= VECTOR_BYTES_MAX
  }

  function EntryOf(c: Config, req: Request): Entry {
    match req
    case ReadRequest(fd, offset, destinationOffset, len, lease) =>
      Entry(Read, fd, offset, false, true, destinationOffset, len, lease, None, 0, Queued)
    case VectorRequest(fd, offset, frames, lease) =>
      Entry(Read, fd, offset, true, true, 0, frames * c.granule, lease, None, 0, Queued)
    case WriteRequest(fd, offset, w) =>
      Entry(Write, fd, offset, false, false, 0, c.granule, Absent, Some(w), 0, Queued)
    case FsyncRequest(fd) =>
      Entry(Fsync, fd, 0, false, false, 0, 0, Absent, None, 0, Queued)
  }

  datatype Admission = Admitted(slot: nat) | Full | StaleHandle

  /** Liveness, then the capacity test over in-flight and retained completions, then a slot. */
  function Admit(c: Config, sh: Shared, fd: FileId): (r: Admission) {
    if !IsLive(sh.files, fd) then StaleHandle
    else if TotalInflight(sh.files) + (|sh.backlog| + |sh.deferred|) >= c.capacity then Full
    else if sh.free == [] then Full
    else Admitted(sh.free[|sh.free| - 1])
  }

  /** Takes the reserved slot off the free list, fills it, counts the operation in flight and
      places it in the ready order. */
  function Commit(sh: Shared, slot: nat, e: Entry, position: nat): (r: Shared)
    requires sh.free != [] && slot == sh.free[|sh.free| - 1] < |sh.slots|
    requires e.fd.slot < |sh.files| && position <= |sh.ready|
  {
    sh.(slots := Fill(sh.slots, slot, e),
        free := sh.free[..|sh.free| - 1],
        files := OnSubmit(sh.files, e.fd),
        ready := sh.ready[..position] + [slot] + sh.ready[position..])
  }

  // ---------------------------------------------------------------- attempts

  /** Takes the head of the ready order and marks it active. The eager backend also takes the
      read destination out of the entry for the unlocked execution. */
  function Activate(c: Config, sh: Shared): (r: Shared)
    requires sh.ready != [] && Occupied(sh.slots, sh.ready[0])
  {
    var e := EntryAt(sh.slots, sh.ready[0]);
    sh.(slots := SetEntry(sh.slots, sh.ready[0], e.(state := Active, frame := e.frame && !c.eager)),
        ready := sh.ready[1..])
  }

  /** What `region` checks of a write's staging range, and what a queued read must still own. */
  predicate Issuable(c: Config, e: Entry) {
    && (e.kind.Read? ==> e.frame)
    && (e.kind.Write? ==>
          && e.writeSlot.Some? && e.writeSlot.value < c.writeSlots
          && e.destinationOffset + e.requestedLen <= c.granule)
  }

  function BytesOf(outcome: Outcome): nat { if outcome.Ok? then outcome.bytes else 0 }

  /** How an attempt ends: the slot is held for a partial vector or a pool-leased one, else freed. */
  datatype Ending = Partial | Kept | Freed

  function EndingOf(e: Entry, outcome: Outcome): Ending {
    if e.vector && 0 < BytesOf(outcome) < e.requestedLen then Partial
    else if e.vector && e.lease.Pool? then Kept
    else Freed
  }

  /** The entry a held operation leaves in its slot. */
  function HeldEntry(c: Config, e: Entry, outcome: Outcome): (r: Entry)
    requires c.granule > 0 && !EndingOf(e, outcome).Freed?
  {
    var bytes := BytesOf(outcome);
    if EndingOf(e, outcome).Partial? then
      e.(fileOffset := e.fileOffset + bytes,
         requestedLen := e.requestedLen - bytes,
         destinationOffset := (e.destinationOffset + bytes) % c.granule,
         frame := false,
         state := Continuation)
    else
      e.(frame := false, state := Terminal(outcome))
  }

  function CompletionOf(token: OpToken, e: Entry, outcome: Outcome): Completion {
    var bytes := BytesOf(outcome);
    Completion(token, e.kind, outcome,
               if EndingOf(e, outcome).Freed? then None
               else Some(Lease(if bytes <= e.requestedLen then e.requestedLen - bytes else 0,
                               EndingOf(e, outcome).Partial?)))
  }

  function FinishAttempt(c: Config, sh: Shared, slot: nat, outcome: Outcome): (r: Shared)
    requires c.granule > 0 && Occupied(sh.slots, slot)
    requires EndingOf(EntryAt(sh.slots, slot), outcome).Freed? ==> CanComplete(sh.files, EntryAt(sh.slots, slot).fd)
  {
    var e := EntryAt(sh.slots, slot);
    if EndingOf(e, outcome).Freed? then Release(sh, slot)
    else sh.(slots := SetEntry(sh.slots, slot, HeldEntry(c, e, outcome)))
  }

  predicate CanComplete(files: seq<FileSlot>, fd: FileId) {
    Current(files, fd) && files[fd.slot].inflight > 0
  }

  /** Reclaims a slot and drops its file's in-flight count. */
  function Release(sh: Shared, slot: nat): (r: Shared)
    requires Occupied(sh.slots, slot) && CanComplete(sh.files, EntryAt(sh.slots, slot).fd)
  {
    sh.(slots := Vacate(sh.slots, slot),
        free := sh.free + [slot],
        files := OnComplete(sh.files, EntryAt(sh.slots, slot).fd))
  }

  /** A retryable CQE puts the operation back at the end of the ready order. */
  function Requeue(sh: Shared, slot: nat, e: Entry): (r: Shared)
    requires slot < |sh.slots|
  {
    sh.(slots := SetEntry(sh.slots, slot, e.(state := Queued)), ready := sh.ready + [slot])
  }

  /** Gives a held slot back: a partial read counts as an I/O error, a kept one as its result. */
  function ReleaseReadLease(sh: Shared, slot: nat): (r: Shared)
    requires IsHeld(sh.slots, slot) && CanComplete(sh.files, EntryAt(sh.slots, slot).fd)
  {
    var e := EntryAt(sh.slots, slot);
    var outcome := if e.state.Continuation? then Err(EIO) else e.state.outcome;
    var sh' := Release(sh, slot);
    sh'.(deferred := sh.deferred + [Deferred(e.fd, Drained(sh'.files, e.fd), outcome)])
  }

  /** Queues the rest of a partial vector read again under its original slot and token. */
  function Resume(sh: Shared, slot: nat): (r: Shared)
    requires Occupied(sh.slots, slot)
  {
    Requeue(sh, slot, EntryAt(sh.slots, slot).(frame := true, retries := 0))
  }

  // ---------------------------------------------------------------- the system

  /** A completion-queue entry: the echoed token and the raw result. */
  datatype Cqe = Cqe(token: OpToken, raw: int)

  /** What happened so far, kept for stating whole-run laws; no step reads it. */
  datatype History = History(
    issued: set<OpToken>,            // tokens minted by admission
    scattered: set<OpToken>,         // those of them for vector reads
    requests: map<OpToken, Request>, // what each of them asked for
    ended: multiset<OpToken>,        // terminal results emitted
    delivered: seq<Completion>,      // completions that reached a caller, in order
    dropped: multiset<OpToken>,      // partial reads given up before their end
    freed: multiset<OpToken>,        // slots returned to the free list
    closed: set<FileId>,             // files `close` was called on
    due: multiset<FileId>,           // files that became due for retirement
    retired: multiset<FileId>)       // files whose retirement finished

  datatype System = System(
    sh: Shared,
    executing: set<OpToken>,        // attempts owned by an executing thread or by the kernel
    cq: seq<Cqe>,                   // posted and not yet reaped
    held: map<OpToken, Lease>,      // leases of completions callers hold
    opening: set<FileId>,           // reserved, backend registration pending
    handles: set<FileId>,           // live handles
    known: set<FileId>,             // every handle ever returned
    registered: seq<Option<nat>>,   // the backend's entry for each file slot
    due: set<FileId>,               // retirement due, backend not yet told
    cleared: set<FileId>,           // backend entry removed, table not yet told
    arena: seq<bool>,               // staging slots: true when free
    owned: set<nat>,                // staging slots callers hold
    seekers: multiset<nat>,         // callers looking for one: the slots each has found taken
    tearing: bool,                  // the driver is being dropped
    hist: History)

  datatype Step =
    | ReserveFile
    | RegisterFile(id: FileId)
    | AbortFile(id: FileId)
    | Close(id: FileId)
    | RetireBackend(id: FileId)
    | FinishRetire(id: FileId)
    | AllocWrite(w: nat)
    | DropWrite(w: nat)
    | Seek
    | Skip(w: nat)
    | Submit(req: Request, position: nat)
    | Prepare
    | Post(token: OpToken, raw: int, at: nat)
    | Reap
    | Publish(token: OpToken, outcome: Outcome, toBacklog: bool)
    | Drain
    | DropLease(token: OpToken)
    | Continue(token: OpToken)
    | Flush
    | Teardown
    | Abandon(slot: nat)

  /** The kernel reports no more bytes than were asked for. */
  predicate RawFits(e: Entry, raw: int) { raw <= e.requestedLen }

  predicate OutcomeFits(e: Entry, outcome: Outcome) { BytesOf(outcome) <= e.requestedLen }

  // ---------------------------------------------------------------- what the surroundings may do

  /** Steps the parties around the core may take: callers use what they own, the kernel answers
      each request once, `Drop` has the driver to itself. Says nothing about the core's state. */
  predicate Offered(c: Config, s: System, step: Step) {
    match step
    case ReserveFile => !s.tearing
    case RegisterFile(id) => id in s.opening
    case AbortFile(id) => id in s.opening
    case Close(id) => id in s.handles
    case RetireBackend(id) => id in s.due
    case FinishRetire(id) => id in s.cleared
    case AllocWrite(w) => w in s.seekers && w < |s.arena| && s.arena[w]
    case DropWrite(w) => w in s.owned
    case Seek => true
    case Skip(w) => w in s.seekers && w < |s.arena| && !s.arena[w]
    case Submit(req, position) =>
      && !s.tearing && WellFormed(c, req) && req.fd in s.known && position <= |s.sh.ready|
      && (req.WriteRequest? ==> req.writeSlot in s.owned)
    case Prepare => s.sh.ready != []
    case Post(token, raw, at) =>
      && !c.eager && token in s.executing && at <= |s.cq|
      && (Contains(s.sh.slots, token) ==> RawFits(EntryAt(s.sh.slots, token.slot), raw))
    case Reap => !c.eager && s.cq != []
    case Publish(token, outcome, toBacklog) =>
      && c.eager && token in s.executing && (toBacklog ==> !s.tearing && |s.arena| in s.seekers)
      && (Contains(s.sh.slots, token) ==> OutcomeFits(EntryAt(s.sh.slots, token.slot), outcome))
    case Drain => s.sh.backlog != []
    case DropLease(token) => token in s.held
    case Continue(token) => token in s.held && s.held[token].more
    case Flush => s.sh.deferred != []
    case Teardown => true
    case Abandon(slot) => s.tearing && IsHeld(s.sh.slots, slot)
  }

  // ---------------------------------------------------------------- the asserts of the code

  predicate FinishSafe(c: Config, s: System, slot: nat, outcome: Outcome) {
    && InState(s.sh.slots, slot, Active)
    && var e := EntryAt(s.sh.slots, slot);
       && (e.vector ==> BytesOf(outcome) <= e.requestedLen)
       && (EndingOf(e, outcome).Freed? ==>
             && CanComplete(s.sh.files, e.fd)
             && (e.lease.Raw? ==> e.frame || c.eager)
             && (e.writeSlot.Some? ==> e.writeSlot.value < |s.arena| && !s.arena[e.writeSlot.value]))
  }

  predicate ReleaseSafe(c: Config, s: System, slot: nat) {
    && IsHeld(s.sh.slots, slot)
    && var e := EntryAt(s.sh.slots, slot);
       !e.frame && CanComplete(s.sh.files, e.fd) && |s.sh.deferred| < c.capacity
  }

  /** The asserts, expects and indexing the code executes in the step, apart from those on the frames
      of a vector, and from the two checks that a 32-bit generation has not run out, which are part of
      `Exhausted`. */
  predicate AssertsHold(c: Config, s: System, step: Step)
    requires Offered(c, s, step)
  {
    match step
    case ReserveFile => true
    case RegisterFile(id) => id.slot < |s.registered| && s.registered[id.slot].None?
    case AbortFile(id) => IsLive(s.sh.files, id) && s.sh.files[id.slot].inflight == 0
    case Close(id) => IsLive(s.sh.files, id)
    case RetireBackend(id) => id.slot < |s.registered| && s.registered[id.slot] == Some(id.generation)
    case FinishRetire(id) => Drained(s.sh.files, id)
    case AllocWrite(_) => true
    case DropWrite(w) => w < |s.arena| && !s.arena[w]
    case Seek => true
    case Skip(_) => true
    case Submit(req, position) =>
      && req.fd.slot < |s.sh.files|
      && var a := Admit(c, s.sh, req.fd);
         a.Admitted? ==> a.slot < |s.sh.slots| && s.sh.slots[a.slot].payload.None?
    case Prepare =>
      InState(s.sh.slots, s.sh.ready[0], Queued) && Issuable(c, EntryAt(s.sh.slots, s.sh.ready[0]))
    case Post(_, _, _) => true
    case Reap =>
      && Contains(s.sh.slots, s.cq[0].token)
      && var e := EntryAt(s.sh.slots, s.cq[0].token.slot);
         && (e.kind.Write? && s.cq[0].raw >= 0 ==> s.cq[0].raw <= e.requestedLen)
         && var p := RingProgress(e, s.cq[0].raw, c.retryBound).1;
            p.Finished? ==> FinishSafe(c, s, s.cq[0].token.slot, p.outcome)
    case Publish(token, outcome, toBacklog) =>
      && FinishSafe(c, s, token.slot, outcome)
      && (toBacklog ==> |s.sh.backlog| < c.capacity)
    case Drain => true
    case DropLease(token) =>
      token.slot < |s.sh.slots| && (Contains(s.sh.slots, token) ==> ReleaseSafe(c, s, token.slot))
    case Continue(token) =>
      && Contains(s.sh.slots, token) && InState(s.sh.slots, token.slot, Continuation)
      && EntryAt(s.sh.slots, token.slot).requestedLen == s.held[token].remaining
      && |s.sh.ready| < c.capacity
    case Flush => true
    case Teardown => true
    case Abandon(slot) => ReleaseSafe(c, s, slot)
  }

  /** The step would mint a generation past the 32-bit range; the code aborts instead. */
  predicate Exhausted(c: Config, s: System, step: Step) {
    match step
    case ReserveFile =>
      var i := FirstReusable(s.sh.files, 0);
      i < |s.sh.files| && s.sh.files[i].generation >= U32_MAX
    case Submit(req, _) =>
      var a := Admit(c, s.sh, req.fd);
      a.Admitted? && a.slot < |s.sh.slots| && s.sh.slots[a.slot].generation >= U32_MAX
    case _ => false
  }

  // ---------------------------------------------------------------- effects

  /** Frees a slot: releases its staging slot and, when that drained a closing file, records it. */
  function Unload(c: Config, s: System, slot: nat, sh: Shared): (r: System)
    requires Occupied(s.sh.slots, slot)
  {
    var e := EntryAt(s.sh.slots, slot);
    var token := TokenAt(s.sh.slots, slot);
    s.(sh := sh,
       arena :=
         if e.writeSlot.Some? && e.writeSlot.value < |s.arena| then s.arena[e.writeSlot.value := true] else s.arena,
       hist := s.hist.(freed := s.hist.freed + multiset{token},
                       due := if Drained(sh.files, e.fd) then s.hist.due + multiset{e.fd} else s.hist.due))
  }

  /** Ends an attempt with a final outcome for this completion. */
  function Finish(c: Config, s: System, slot: nat, outcome: Outcome): (r: System)
    requires c.granule > 0 && Occupied(s.sh.slots, slot)
    requires EndingOf(EntryAt(s.sh.slots, slot), outcome).Freed? ==>
             CanComplete(s.sh.files, EntryAt(s.sh.slots, slot).fd)
  {
    var e := EntryAt(s.sh.slots, slot);
    var token := TokenAt(s.sh.slots, slot);
    var sh := FinishAttempt(c, s.sh, slot, outcome);
    match EndingOf(e, outcome)
    case Partial => s.(sh := sh)
    case Kept => s.(sh := sh, hist := s.hist.(ended := s.hist.ended + multiset{token}))
    case Freed =>
      var s' := Unload(c, s, slot, sh);
      s'.(due := if Drained(sh.files, e.fd) then s.due + {e.fd} else s.due,
          hist := s'.hist.(ended := s.hist.ended + multiset{token}))
  }

  /** A completion reaches its caller, who then owns the lease it carries. */
  function Deliver(s: System, done: Completion): (r: System) {
    s.(held := if done.lease.Some? then s.held[done.token := done.lease.value] else s.held,
       hist := s.hist.(delivered := s.hist.delivered + [done]))
  }

  /** A held slot is given back; a partial read ends here without a terminal result. */
  function GiveBack(c: Config, s: System, slot: nat): (r: System)
    requires IsHeld(s.sh.slots, slot) && CanComplete(s.sh.files, EntryAt(s.sh.slots, slot).fd)
  {
    var s' := Unload(c, s, slot, ReleaseReadLease(s.sh, slot));
    if EntryAt(s.sh.slots, slot).state.Continuation? then
      s'.(hist := s'.hist.(dropped := s.hist.dropped + multiset{TokenAt(s.sh.slots, slot)}))
    else s'
  }

  function Apply(c: Config, s: System, step: Step): (r: System)
    requires c.Valid() && Offered(c, s, step) && AssertsHold(c, s, step)
  {
    match step
    case ReserveFile =>
      var i := FirstReusable(s.sh.files, 0);
      if i == |s.sh.files| then s
      else
        var files := OpenFile(s.sh.files, i);
        s.(sh := s.sh.(files := files), opening := s.opening + {FileId(i, files[i].generation)})
    case RegisterFile(id) =>
      s.(registered := s.registered[id.slot := Some(id.generation)],
         opening := s.opening - {id}, handles := s.handles + {id}, known := s.known + {id})
    case AbortFile(id) =>
      s.(sh := s.sh.(files := SetState(s.sh.files, id, Free)), opening := s.opening - {id})
    case Close(id) =>
      var files := SetState(s.sh.files, id, Closing);
      var now := files[id.slot].inflight == 0;
      s.(sh := s.sh.(files := files),
         handles := s.handles - {id},
         due := if now then s.due + {id} else s.due,
         hist := s.hist.(closed := s.hist.closed + {id},
                         due := if now then s.hist.due + multiset{id} else s.hist.due))
    case RetireBackend(id) =>
      s.(registered := s.registered[id.slot := None], due := s.due - {id}, cleared := s.cleared + {id})
    case FinishRetire(id) =>
      s.(sh := s.sh.(files := SetState(s.sh.files, id, Closed)),
         cleared := s.cleared - {id},
         hist := s.hist.(retired := s.hist.retired + multiset{id}))
    case AllocWrite(w) =>
      s.(arena := s.arena[w := false], owned := s.owned + {w}, seekers := s.seekers - multiset{w})
    case DropWrite(w) => s.(arena := s.arena[w := true], owned := s.owned - {w})
    case Seek => s.(seekers := s.seekers + multiset{0})
    case Skip(w) => s.(seekers := s.seekers - multiset{w} + multiset{w + 1})
    case Submit(req, position) =>
      var a := Admit(c, s.sh, req.fd);
      if !a.Admitted? then s
      else
        var sh := Commit(s.sh, a.slot, EntryOf(c, req), position);
        s.(sh := sh,
           owned := if req.WriteRequest? then s.owned - {req.writeSlot} else s.owned,
           hist := s.hist.(issued := s.hist.issued + {TokenAt(sh.slots, a.slot)},
                           scattered :=
                             if req.VectorRequest? then s.hist.scattered + {TokenAt(sh.slots, a.slot)}
                             else s.hist.scattered,
                           requests := s.hist.requests[TokenAt(sh.slots, a.slot) := req]))
    case Prepare =>
      s.(sh := Activate(c, s.sh), executing := s.executing + {TokenAt(s.sh.slots, s.sh.ready[0])})
    case Post(token, raw, at) =>
      s.(executing := s.executing - {token}, cq := s.cq[..at] + [Cqe(token, raw)] + s.cq[at..])
    case Reap =>
      var slot := s.cq[0].token.slot;
      var e := EntryAt(s.sh.slots, slot);
      var (e', p) := RingProgress(e, s.cq[0].raw, c.retryBound);
      var popped := s.(cq := s.cq[1..]);
      (match p
       case Resubmit => popped.(sh := Requeue(s.sh, slot, e'))
       case Finished(outcome) =>
         Deliver(Finish(c, popped, slot, outcome), CompletionOf(s.cq[0].token, e, outcome)))
    case Publish(token, outcome, toBacklog) =>
      var done := CompletionOf(TokenAt(s.sh.slots, token.slot), EntryAt(s.sh.slots, token.slot), outcome);
      var s' := Finish(c, s.(executing := s.executing - {token}), token.slot, outcome);
      if toBacklog then
        s'.(sh := s'.sh.(backlog := s.sh.backlog + [done]), seekers := s.seekers - multiset{|s.arena|})
      else Deliver(s', done)
    case Drain =>
      Deliver(s.(sh := s.sh.(backlog := s.sh.backlog[1..])), s.sh.backlog[0])
    case DropLease(token) =>
      var s' := if Contains(s.sh.slots, token) then GiveBack(c, s, token.slot) else s;
      s'.(held := s.held - {token})
    case Continue(token) =>
      s.(sh := Resume(s.sh, token.slot), held := s.held - {token})
    case Flush =>
      var d := s.sh.deferred[0];
      s.(sh := s.sh.(deferred := s.sh.deferred[1..]), due := if d.retire then s.due + {d.fd} else s.due)
    case Teardown => s.(tearing := true)
    case Abandon(slot) => GiveBack(c, s, slot)
  }

  function Empty<T>(n: nat, x: T): (r: seq<T>)
    ensures |r| == n && forall i | 0 <= i < n :: r[i] == x
  {
    if n == 0 then [] else [x] + Empty(n - 1, x)
  }

  /** Slots are pushed in descending order, so slot 0 is taken first. */
  function Descending(n: nat): (r: seq<nat>)
    ensures |r| == n
  {
    if n == 0 then [] else [n - 1] + Descending(n - 1)
  }

  function Init(c: Config): (s: System) {
    System(
      Shared(Empty(c.capacity, SlabSlot(0, None)), Descending(c.capacity),
             Empty(c.fileCapacity, FileSlot(0, Free, 0)), [], [], []),
      {}, [], map[], {}, {}, {}, Empty(c.fileCapacity, None), {}, {}, Empty(c.writeSlots, true), {},
      multiset{}, false,
      History({}, {}, map[], multiset{}, [], multiset{}, multiset{}, {}, multiset{}, multiset{}))
  }

  /** One step of the system: offered by the surroundings, past every assert of the code. */
  predicate Next(c: Config, s: System, step: Step, s': System) {
    && c.Valid() && Offered(c, s, step) && AssertsHold(c, s, step) && !Exhausted(c, s, step)
    && s' == Apply(c, s, step)
  }

  /** `steps` leads from `s` to `t`. */
  predicate Run(c: Config, s: System, steps: seq<Step>, t: System)
    decreases |steps|
  {
    if steps == [] then s == t
    else
      && c.Valid() && Offered(c, s, steps[0]) && AssertsHold(c, s, steps[0]) && !Exhausted(c, s, steps[0])
      && Run(c, Apply(c, s, steps[0]), steps[1..], t)
  }

  ghost predicate Reachable(c: Config, s: System) {
    c.Valid() && exists steps :: Run(c, Init(c), steps, s)
  }
}
