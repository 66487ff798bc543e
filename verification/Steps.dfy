/** Every step the surroundings can offer passes the asserts of the code and keeps the invariant. */
module Steps {
  import opened Types
  import opened Counting
  import opened Ops
  import opened Core
  import opened Invariant
  import opened PreserveSlab
  import opened PreserveLease
  import opened PreserveFiles

  // ---------------------------------------------------------------- the two slot changes

  /** An operation changes in place: same file, same staging slot. */
  lemma RestateKeeps(c: Config, s: System, i: nat, e: Entry)
    requires Inv(c, s) && Occupied(s.sh.slots, i) && EntryOk(c, e)
    requires e.fd == EntryAt(s.sh.slots, i).fd && e.writeSlot == EntryAt(s.sh.slots, i).writeSlot
    requires e.vector == EntryAt(s.sh.slots, i).vector
    ensures var slots := SetEntry(s.sh.slots, i, e);
            && SlabOk(c, slots, s.sh.free) && EntriesOk(c, slots) && FilesOk(slots, s.sh.files)
            && KnownOk(slots, s.known) && ArenaOk(c, slots, s.arena, s.owned)
            && ScatterOk(slots, s.hist.issued, s.hist.scattered, s.hist.dropped)
  {
    hide SlabOk, EntriesOk, ReadyOk, FlightOk, LeaseOk, FilesOk, RetireOk, BackendOk, KnownOk, ArenaOk, RoomOk,
         TokensOk, ScatterOk, CloseOk;
    var x := SetEntry(s.sh.slots, i, e)[i];
    SlabRestate(c, s.sh.slots, s.sh.free, i, e);
    EntriesChange(c, s.sh.slots, i, x);
    FilesRestate(s.sh.slots, s.sh.files, i, e);
    KnownFact(s.sh.slots, s.known, i);
    KnownChange(s.sh.slots, s.known, i, x);
    ArenaRestate(c, s.sh.slots, s.arena, s.owned, i, e);
    ScatterRestate(s.sh.slots, s.hist, i, e);
  }

  /** An operation that is not queued leaves its slot. */
  lemma VacateKeeps(c: Config, s: System, i: nat)
    requires Inv(c, s) && Occupied(s.sh.slots, i) && !InState(s.sh.slots, i, Queued)
    ensures var e := EntryAt(s.sh.slots, i);
            && CanComplete(s.sh.files, e.fd)
            && (e.writeSlot.Some? ==> e.writeSlot.value < |s.arena| && !s.arena[e.writeSlot.value])
            && var slots, files := Vacate(s.sh.slots, i), OnComplete(s.sh.files, e.fd);
               && SlabOk(c, slots, s.sh.free + [i]) && EntriesOk(c, slots) && ReadyOk(slots, s.sh.ready)
               && FilesOk(slots, files) && KnownOk(slots, s.known)
               && ArenaOk(c, slots, if e.writeSlot.Some? && e.writeSlot.value < |s.arena|
                  then s.arena[e.writeSlot.value := true] else s.arena, s.owned)
               && BackendOk(c, files, s.opening, s.handles, s.known, s.registered, s.cleared)
               && CloseOk(files, s.hist.closed, if Drained(files, e.fd) then s.hist.due + multiset{e.fd}
                  else s.hist.due, s.hist.retired)
  {
    hide SlabOk, EntriesOk, ReadyOk, FlightOk, LeaseOk, FilesOk, RetireOk, BackendOk, KnownOk, ArenaOk, RoomOk,
         TokensOk, ScatterOk, CloseOk;
    var e := EntryAt(s.sh.slots, i);
    var x := Vacate(s.sh.slots, i)[i];
    FilesCount(s.sh.slots, s.sh.files, i);
    SlabVacate(c, s.sh.slots, s.sh.free, i);
    EntriesChange(c, s.sh.slots, i, x);
    ReadyKeep(s.sh.slots, s.sh.ready, i, x);
    FilesVacate(s.sh.slots, s.sh.files, i);
    KnownFact(s.sh.slots, s.known, i);
    KnownChange(s.sh.slots, s.known, i, x);
    ArenaVacate(c, s.sh.slots, s.arena, s.owned, i);
    BackendCount(c, s, e.fd, s.sh.files[e.fd.slot].inflight - 1);
    CloseComplete(s.sh.files, s.hist, e.fd);
  }

  /** Only the completing operation's file can become drained, and it was not before. */
  lemma DrainedByComplete(files: seq<FileSlot>, fd: FileId)
    requires CanComplete(files, fd)
    ensures !Drained(files, fd)
    ensures forall id: FileId | id != fd :: Drained(OnComplete(files, fd), id) == Drained(files, id)
  {
  }

  // ---------------------------------------------------------------- files

  lemma ReserveFileKeeps(c: Config, s: System)
    requires c.Valid() && Inv(c, s) && Offered(c, s, ReserveFile)
    ensures Inv(c, Apply(c, s, ReserveFile))
  {
    hide SlabOk, EntriesOk, ReadyOk, FlightOk, LeaseOk, FilesOk, RetireOk, BackendOk, KnownOk, ArenaOk, RoomOk,
         TokensOk, ScatterOk, CloseOk;
    var files, f := s.sh.files, FirstReusable(s.sh.files, 0);
    if f < |files| {
      var files' := OpenFile(files, f);
      BackendFacts(c, s, IdAt(files, f));
      assert forall id: FileId :: Drained(files', id) == Drained(files, id);
      RetireFact(files, s.sh.deferred, s.due, s.cleared);
      FilesChange(s.sh.slots, files, f, files'[f]);
      RetireQuiet(files, files', s.sh.deferred, s.due, s.cleared);
      BackendOpen(c, s, f);
      CloseOpen(files, s.hist, f);
    }
  }

  lemma RegisterFileKeeps(c: Config, s: System, id: FileId)
    requires c.Valid() && Inv(c, s) && Offered(c, s, RegisterFile(id))
    ensures AssertsHold(c, s, RegisterFile(id)) && Inv(c, Apply(c, s, RegisterFile(id)))
  {
    assert KnownOk(s.sh.slots, s.known + {id});
    hide SlabOk, EntriesOk, ReadyOk, FlightOk, LeaseOk, FilesOk, RetireOk, BackendOk, KnownOk, ArenaOk, RoomOk,
         TokensOk, ScatterOk, CloseOk;
    BackendRegister(c, s, id);
  }

  lemma AbortFileKeeps(c: Config, s: System, id: FileId)
    requires c.Valid() && Inv(c, s) && Offered(c, s, AbortFile(id))
    ensures AssertsHold(c, s, AbortFile(id)) && Inv(c, Apply(c, s, AbortFile(id)))
  {
    hide SlabOk, EntriesOk, ReadyOk, FlightOk, LeaseOk, FilesOk, RetireOk, BackendOk, KnownOk, ArenaOk, RoomOk,
         TokensOk, ScatterOk, CloseOk;
    BackendFacts(c, s, id);
    var files, files' := s.sh.files, SetState(s.sh.files, id, Free);
    assert forall other: FileId :: Drained(files', other) == Drained(files, other);
    FilesChange(s.sh.slots, files, id.slot, files'[id.slot]);
    RetireQuiet(files, files', s.sh.deferred, s.due, s.cleared);
    BackendAbort(c, s, id);
    CloseAbort(files, s.hist, id);
  }

  lemma CloseKeeps(c: Config, s: System, id: FileId)
    requires c.Valid() && Inv(c, s) && Offered(c, s, Close(id))
    ensures AssertsHold(c, s, Close(id)) && Inv(c, Apply(c, s, Close(id)))
  {
    hide SlabOk, EntriesOk, ReadyOk, FlightOk, LeaseOk, FilesOk, RetireOk, BackendOk, KnownOk, ArenaOk, RoomOk,
         TokensOk, ScatterOk, CloseOk;
    BackendFacts(c, s, id);
    var files, files' := s.sh.files, SetState(s.sh.files, id, Closing);
    RetireFact(files, s.sh.deferred, s.due, s.cleared);
    assert forall other: FileId | other != id :: Drained(files', other) == Drained(files, other);
    FilesChange(s.sh.slots, files, id.slot, files'[id.slot]);
    if files'[id.slot].inflight == 0 {
      RetireDue(files, files', s.sh.deferred, s.due, s.cleared, id);
    } else {
      RetireQuiet(files, files', s.sh.deferred, s.due, s.cleared);
    }
    BackendClose(c, s, id);
    CloseClose(files, s.hist, id);
  }

  lemma RetireBackendKeeps(c: Config, s: System, id: FileId)
    requires c.Valid() && Inv(c, s) && Offered(c, s, RetireBackend(id))
    ensures AssertsHold(c, s, RetireBackend(id)) && Inv(c, Apply(c, s, RetireBackend(id)))
  {
    hide SlabOk, EntriesOk, ReadyOk, FlightOk, LeaseOk, FilesOk, RetireOk, BackendOk, KnownOk, ArenaOk, RoomOk,
         TokensOk, ScatterOk, CloseOk;
    BackendFacts(c, s, id);
    RetireMove(s.sh.files, s.sh.deferred, s.due, s.cleared, id);
    BackendRetire(c, s, id);
  }

  lemma FinishRetireKeeps(c: Config, s: System, id: FileId)
    requires c.Valid() && Inv(c, s) && Offered(c, s, FinishRetire(id))
    ensures AssertsHold(c, s, FinishRetire(id)) && Inv(c, Apply(c, s, FinishRetire(id)))
  {
    hide SlabOk, EntriesOk, ReadyOk, FlightOk, LeaseOk, FilesOk, RetireOk, BackendOk, KnownOk, ArenaOk, RoomOk,
         TokensOk, ScatterOk, CloseOk;
    var files := s.sh.files;
    RetireFact(files, s.sh.deferred, s.due, s.cleared);
    FilesChange(s.sh.slots, files, id.slot, SetState(files, id, Closed)[id.slot]);
    RetireFinish(files, s.sh.deferred, s.due, s.cleared, id);
    BackendFinish(c, s, id);
    CloseFinish(files, s.hist, id);
  }

  // ---------------------------------------------------------------- staging slots

  lemma WriteSlotKeeps(c: Config, s: System, step: Step)
    requires c.Valid() && Inv(c, s) && (step.AllocWrite? || step.DropWrite?) && Offered(c, s, step)
    ensures AssertsHold(c, s, step) && Inv(c, Apply(c, s, step))
  {
    hide SlabOk, EntriesOk, ReadyOk, FlightOk, LeaseOk, FilesOk, RetireOk, BackendOk, KnownOk, ArenaOk, RoomOk,
         TokensOk, ScatterOk, CloseOk;
    ArenaMove(c, s.sh.slots, s.arena, s.owned, step.w);
  }

  /** Looking for a staging slot touches nothing the invariant speaks of. */
  lemma SeekKeeps(c: Config, s: System, step: Step)
    requires c.Valid() && (step.Seek? || step.Skip?) && Offered(c, s, step)
    requires Inv(c, s)
    ensures AssertsHold(c, s, step) && Inv(c, Apply(c, s, step))
  {
    hide SlabOk, EntriesOk, ReadyOk, FlightOk, LeaseOk, FilesOk, RetireOk, BackendOk, KnownOk, ArenaOk, RoomOk,
         TokensOk, ScatterOk, CloseOk;
  }

  // ---------------------------------------------------------------- submission

  /** The capacity test leaves a free slot: after it, `reserve` cannot fail. */
  lemma AdmitReserves(c: Config, s: System, fd: FileId)
    requires Inv(c, s) && IsLive(s.sh.files, fd)
    ensures Admit(c, s.sh, fd).Admitted?
            <==> TotalInflight(s.sh.files) + (|s.sh.backlog| + |s.sh.deferred|) < c.capacity
    ensures Admit(c, s.sh, fd).Admitted? ==>
              && s.sh.free != [] && Admit(c, s.sh, fd).slot < |s.sh.slots|
              && s.sh.slots[Admit(c, s.sh, fd).slot].payload.None?
              && Count(s.sh.slots, Filled()) + |s.sh.backlog| + |s.sh.deferred| < c.capacity
  {
    hide SlabOk, EntriesOk, ReadyOk, FlightOk, LeaseOk, FilesOk, RetireOk, BackendOk, KnownOk, ArenaOk, RoomOk,
         TokensOk, ScatterOk, CloseOk;
    FilesTotal(s.sh.slots, s.sh.files);
    if TotalInflight(s.sh.files) + (|s.sh.backlog| + |s.sh.deferred|) < c.capacity {
      SlabHasRoom(c, s.sh.slots, s.sh.free);
    }
  }

  lemma SubmitKeeps(c: Config, s: System, req: Request, position: nat)
    requires c.Valid() && Inv(c, s) && Offered(c, s, Submit(req, position)) && !Exhausted(c, s, Submit(req, position))
    ensures AssertsHold(c, s, Submit(req, position)) && Inv(c, Apply(c, s, Submit(req, position)))
  {
    hide SlabOk, EntriesOk, ReadyOk, FlightOk, LeaseOk, FilesOk, RetireOk, BackendOk, KnownOk, ArenaOk, RoomOk,
         TokensOk, ScatterOk, CloseOk;
    BackendFacts(c, s, req.fd);
    if Admit(c, s.sh, req.fd).Admitted? {
      AdmitReserves(c, s, req.fd);
      CommitKeeps(c, s, req, position);
    }
  }

  /** Counting a submission disturbs neither retirement nor registration nor close history. */
  lemma OnSubmitKeeps(c: Config, s: System, fd: FileId)
    requires Inv(c, s) && fd in s.known && IsLive(s.sh.files, fd)
    ensures var files := OnSubmit(s.sh.files, fd);
            && RetireOk(files, s.sh.deferred, s.due, s.cleared)
            && BackendOk(c, files, s.opening, s.handles, s.known, s.registered, s.cleared)
            && CloseOk(files, s.hist.closed, s.hist.due, s.hist.retired)
  {
    hide SlabOk, EntriesOk, ReadyOk, FlightOk, LeaseOk, FilesOk, RetireOk, BackendOk, KnownOk, ArenaOk, RoomOk,
         TokensOk, ScatterOk, CloseOk;
    var files := OnSubmit(s.sh.files, fd);
    assert forall id: FileId ::
        Drained(files, id) == Drained(s.sh.files, id) && Draining(files, id) == Draining(s.sh.files, id);
    RetireQuiet(s.sh.files, files, s.sh.deferred, s.due, s.cleared);
    BackendCount(c, s, fd, s.sh.files[fd.slot].inflight + 1);
    CloseQuiet(s.sh.files, files, s.hist);
  }

  lemma CommitKeeps(c: Config, s: System, req: Request, position: nat)
    requires c.Valid() && Inv(c, s) && Offered(c, s, Submit(req, position)) && !Exhausted(c, s, Submit(req, position))
    requires AssertsHold(c, s, Submit(req, position)) && Admit(c, s.sh, req.fd).Admitted?
    requires Count(s.sh.slots, Filled()) + |s.sh.backlog| + |s.sh.deferred| < c.capacity
    ensures Inv(c, Apply(c, s, Submit(req, position)))
  {
    hide SlabOk, EntriesOk, ReadyOk, FlightOk, LeaseOk, FilesOk, RetireOk, BackendOk, KnownOk, ArenaOk, RoomOk,
         TokensOk, ScatterOk, CloseOk;
    var i, e := Admit(c, s.sh, req.fd).slot, EntryOf(c, req);
    assert e.fd == req.fd && EntryOk(c, e);
    var x := Fill(s.sh.slots, i, e)[i];
    OnSubmitKeeps(c, s, req.fd);
    SlabFill(c, s.sh.slots, s.sh.free, i, e);
    EntriesChange(c, s.sh.slots, i, x);
    ReadyFill(s.sh.slots, s.sh.ready, i, e, position);
    FlightQuiet(s.sh.slots, s.executing, s.cq, i, x);
    LeaseQuiet(s.sh.slots, s.sh.backlog, s.held, s.tearing, i, x);
    FilesFill(s.sh.slots, s.sh.files, i, e);
    KnownChange(s.sh.slots, s.known, i, x);
    ArenaFill(c, s.sh.slots, s.arena, s.owned, i, e);
    RoomFill(c, s.sh.slots, s.sh.backlog, s.sh.deferred, s.held, s.tearing, i, e);
    TokensFill(s.sh.slots, s.hist, i, e);
    TokensIssued(s.sh.slots, s.hist);
    ScatterFill(s.sh.slots, s.hist, i, e);
  }

  // ---------------------------------------------------------------- attempts

  lemma PrepareKeeps(c: Config, s: System)
    requires c.Valid() && Inv(c, s) && Offered(c, s, Prepare)
    ensures AssertsHold(c, s, Prepare) && Inv(c, Apply(c, s, Prepare))
  {
    hide SlabOk, EntriesOk, ReadyOk, FlightOk, LeaseOk, FilesOk, RetireOk, BackendOk, KnownOk, ArenaOk, RoomOk,
         TokensOk, ScatterOk, CloseOk;
    var i := s.sh.ready[0];
    ReadyHead(s.sh.slots, s.sh.ready);
    EntryFact(c, s.sh.slots, i);
    var e := EntryAt(s.sh.slots, i);
    var e' := e.(state := Active, frame := e.frame && !c.eager);
    var x := SetEntry(s.sh.slots, i, e')[i];
    RestateKeeps(c, s, i, e');
    ReadyPop(s.sh.slots, s.sh.ready, e');
    FlightStart(s.sh.slots, s.executing, s.cq, i, e');
    LeaseQuiet(s.sh.slots, s.sh.backlog, s.held, s.tearing, i, x);
    RoomQuiet(c, s.sh.slots, s.sh.backlog, s.sh.deferred, s.held, s.tearing, i, x, None);
    TokensRestate(s.sh.slots, s.hist, i, e');
  }

  lemma PostKeeps(c: Config, s: System, token: OpToken, raw: int, at: nat, s': System)
    requires Offered(c, s, Post(token, raw, at))
    requires s' == s.(executing := s.executing - {token}, cq := s.cq[..at] + [Cqe(token, raw)] + s.cq[at..])
    requires Inv(c, s)
    ensures Inv(c, s')
  {
    hide SlabOk, EntriesOk, ReadyOk, FlightOk, LeaseOk, FilesOk, RetireOk, BackendOk, KnownOk, ArenaOk, RoomOk,
         TokensOk, ScatterOk, CloseOk;
    FlightPost(s.sh.slots, s.executing, s.cq, token, raw, at);
  }

  predicate VectorFits(e: Entry, outcome: Outcome) { e.vector ==> OutcomeFits(e, outcome) }

  /** Ending the attempt of an active operation passes every assert. */
  lemma FinishIsSafe(c: Config, s: System, slot: nat, outcome: Outcome)
    requires Inv(c, s) && InState(s.sh.slots, slot, Active) && VectorFits(EntryAt(s.sh.slots, slot), outcome)
    ensures FinishSafe(c, s, slot, outcome)
  {
    hide SlabOk, EntriesOk, ReadyOk, FlightOk, LeaseOk, FilesOk, RetireOk, BackendOk, KnownOk, ArenaOk, RoomOk,
         TokensOk, ScatterOk, CloseOk;
    EntryFact(c, s.sh.slots, slot);
    VacateKeeps(c, s, slot);
  }

  /** The operation is over and its slot freed; its completion may enter the backlog. */
  lemma FreedKeeps(c: Config, s: System, slot: nat, outcome: Outcome, s': System)
    requires c.Valid() && Inv(c, s) && InState(s.sh.slots, slot, Active)
    requires EndingOf(EntryAt(s.sh.slots, slot), outcome).Freed?
    requires CanComplete(s.sh.files, EntryAt(s.sh.slots, slot).fd)
    requires var f := Finish(c, s, slot, outcome);
             var done := CompletionOf(TokenAt(s.sh.slots, slot), EntryAt(s.sh.slots, slot), outcome);
             || s' == Deliver(f, done).(executing := s'.executing, cq := s'.cq)
             || s' == f.(executing := s'.executing, cq := s'.cq, seekers := s'.seekers,
                         sh := f.sh.(backlog := s.sh.backlog + [done]))
    requires FlightOk(s'.sh.slots, s'.executing, s'.cq)
    ensures Inv(c, s')
  {
    hide SlabOk, EntriesOk, ReadyOk, FlightOk, LeaseOk, FilesOk, RetireOk, BackendOk, KnownOk, ArenaOk, RoomOk,
         TokensOk, ScatterOk, CloseOk;
    var e := EntryAt(s.sh.slots, slot);
    var done := CompletionOf(TokenAt(s.sh.slots, slot), e, outcome);
    var slots, files := Vacate(s.sh.slots, slot), OnComplete(s.sh.files, e.fd);
    VacateKeeps(c, s, slot);
    DrainedByComplete(s.sh.files, e.fd);
    LeaseQuiet(s.sh.slots, s.sh.backlog, s.held, s.tearing, slot, slots[slot]);
    LeaseIgnore(slots, s.sh.backlog, s.held, s.tearing, done);
    RoomQuiet(c, s.sh.slots, s.sh.backlog, s.sh.deferred, s.held, s.tearing, slot, slots[slot], None);
    RoomQuiet(c, s.sh.slots, s.sh.backlog, s.sh.deferred, s.held, s.tearing, slot, slots[slot], Some(done));
    TokensVacate(s.sh.slots, s.hist, slot, true);
    ScatterVacate(s.sh.slots, s.hist, slot);
    if Drained(files, e.fd) {
      RetireDue(s.sh.files, files, s.sh.deferred, s.due, s.cleared, e.fd);
    } else {
      RetireQuiet(s.sh.files, files, s.sh.deferred, s.due, s.cleared);
    }
  }

  /** The operation stays in its slot, held by the lease its completion carries. */
  lemma HeldKeeps(c: Config, s: System, slot: nat, outcome: Outcome, s': System)
    requires c.Valid() && Inv(c, s) && InState(s.sh.slots, slot, Active)
             && VectorFits(EntryAt(s.sh.slots, slot), outcome)
    requires !EndingOf(EntryAt(s.sh.slots, slot), outcome).Freed?
    requires var f := Finish(c, s, slot, outcome);
             var done := CompletionOf(TokenAt(s.sh.slots, slot), EntryAt(s.sh.slots, slot), outcome);
             || s' == Deliver(f, done).(executing := s'.executing, cq := s'.cq)
             || s' == f.(executing := s'.executing, cq := s'.cq, seekers := s'.seekers,
                         sh := f.sh.(backlog := s.sh.backlog + [done]))
    requires FlightOk(s'.sh.slots, s'.executing, s'.cq)
    ensures Inv(c, s')
  {
    hide SlabOk, EntriesOk, ReadyOk, FlightOk, LeaseOk, FilesOk, RetireOk, BackendOk, KnownOk, ArenaOk, RoomOk,
         TokensOk, ScatterOk, CloseOk;
    EntryFact(c, s.sh.slots, slot);
    var e := EntryAt(s.sh.slots, slot);
    var e' := HeldEntry(c, e, outcome);
    var done := CompletionOf(TokenAt(s.sh.slots, slot), e, outcome);
    RestateKeeps(c, s, slot, e');
    ReadyKeep(s.sh.slots, s.sh.ready, slot, SetEntry(s.sh.slots, slot, e')[slot]);
    LeaseGive(s.sh.slots, s.sh.backlog, s.held, s.tearing, slot, e', done.lease.value);
    LeaseStore(s.sh.slots, s.sh.backlog, s.held, s.tearing, slot, e', done);
    RoomGive(c, s.sh.slots, s.sh.backlog, s.sh.deferred, s.held, s.tearing, slot, e', done.lease.value);
    RoomStore(c, s.sh.slots, s.sh.backlog, s.sh.deferred, s.held, s.tearing, slot, e', done);
    if EndingOf(e, outcome).Partial? {
      TokensRestate(s.sh.slots, s.hist, slot, e');
    } else {
      TokensEnd(s.sh.slots, s.hist, slot, e');
    }
  }

  /** What a posted completion entry is known to be: live, active, and of a size that fits. */
  lemma CqeFacts(c: Config, s: System)
    requires Inv(c, s) && s.cq != []
    ensures ActiveToken(s.sh.slots, s.cq[0].token) && TokenAt(s.sh.slots, s.cq[0].token.slot) == s.cq[0].token
    ensures var e := EntryAt(s.sh.slots, s.cq[0].token.slot);
            && EntryOk(c, e) && RawFits(e, s.cq[0].raw)
            && var p := RingProgress(e, s.cq[0].raw, c.retryBound).1;
               p.Finished? ==> VectorFits(e, p.outcome)
  {
    var t := s.cq[0].token;
    FlightLive(s.sh.slots, s.executing, s.cq, t);
    assert RawFits(s.sh.slots[s.cq[0].token.slot].payload.value, s.cq[0].raw);
    hide SlabOk, EntriesOk, ReadyOk, FlightOk, LeaseOk, FilesOk, RetireOk, BackendOk, KnownOk, ArenaOk, RoomOk,
         TokensOk, ScatterOk, CloseOk;
    EntryFact(c, s.sh.slots, t.slot);
  }

  /** A retryable completion entry: the operation is queued again. */
  lemma RequeueKeeps(c: Config, s: System)
    requires c.Valid() && !c.eager && Inv(c, s) && s.cq != [] && Contains(s.sh.slots, s.cq[0].token)
    requires RawFits(EntryAt(s.sh.slots, s.cq[0].token.slot), s.cq[0].raw)
    requires RingProgress(EntryAt(s.sh.slots, s.cq[0].token.slot), s.cq[0].raw, c.retryBound).1.Resubmit?
    ensures var e' := RingProgress(EntryAt(s.sh.slots, s.cq[0].token.slot), s.cq[0].raw, c.retryBound).0;
            Inv(c, s.(cq := s.cq[1..], sh := Requeue(s.sh, s.cq[0].token.slot, e')))
  {
    hide SlabOk, EntriesOk, ReadyOk, FlightOk, LeaseOk, FilesOk, RetireOk, BackendOk, KnownOk, ArenaOk, RoomOk,
         TokensOk, ScatterOk, CloseOk;
    var slot, raw := s.cq[0].token.slot, s.cq[0].raw;
    CqeFacts(c, s);
    var e := EntryAt(s.sh.slots, slot);
    RingProgressFrame(e, raw, c.retryBound);
    var e' := RingProgress(e, raw, c.retryBound).0.(state := Queued);
    var x := SetEntry(s.sh.slots, slot, e')[slot];
    RestateKeeps(c, s, slot, e');
    ReadyPush(s.sh.slots, s.sh.ready, slot, e');
    FlightReap(s.sh.slots, s.executing, s.cq, x);
    LeaseQuiet(s.sh.slots, s.sh.backlog, s.held, s.tearing, slot, x);
    RoomQuiet(c, s.sh.slots, s.sh.backlog, s.sh.deferred, s.held, s.tearing, slot, x, None);
    TokensRestate(s.sh.slots, s.hist, slot, e');
  }

  lemma ReapKeeps(c: Config, s: System)
    requires c.Valid() && Inv(c, s) && Offered(c, s, Reap)
    ensures AssertsHold(c, s, Reap) && Inv(c, Apply(c, s, Reap))
  {
    hide SlabOk, EntriesOk, ReadyOk, FlightOk, LeaseOk, FilesOk, RetireOk, BackendOk, KnownOk, ArenaOk, RoomOk,
         TokensOk, ScatterOk, CloseOk;
    CqeFacts(c, s);
    var slot := s.cq[0].token.slot;
    var e := EntryAt(s.sh.slots, slot);
    var p := RingProgress(e, s.cq[0].raw, c.retryBound).1;
    match p
    case Resubmit => RequeueKeeps(c, s);
    case Finished(outcome) =>
      FinishIsSafe(c, s, slot, outcome);
      var s' := Apply(c, s, Reap);
      FlightReap(s.sh.slots, s.executing, s.cq, s'.sh.slots[slot]);
      if EndingOf(e, outcome).Freed? {
        FreedKeeps(c, s, slot, outcome, s');
      } else {
        HeldKeeps(c, s, slot, outcome, s');
      }
  }

  lemma PublishIsSafe(c: Config, s: System, token: OpToken, outcome: Outcome, toBacklog: bool)
    requires c.Valid() && Inv(c, s) && Offered(c, s, Publish(token, outcome, toBacklog))
    ensures AssertsHold(c, s, Publish(token, outcome, toBacklog)) && ActiveToken(s.sh.slots, token)
    ensures VectorFits(EntryAt(s.sh.slots, token.slot), outcome)
  {
    hide SlabOk, EntriesOk, ReadyOk, FlightOk, LeaseOk, FilesOk, RetireOk, BackendOk, KnownOk, ArenaOk, RoomOk,
         TokensOk, ScatterOk, CloseOk;
    FlightLive(s.sh.slots, s.executing, s.cq, token);
    FinishIsSafe(c, s, token.slot, outcome);
    if toBacklog { RoomForCompletion(c, s.sh.slots, s.sh.backlog, s.sh.deferred, s.held, token.slot); }
  }

  lemma PublishKeeps(c: Config, s: System, token: OpToken, outcome: Outcome, toBacklog: bool)
    requires c.Valid() && Inv(c, s) && Offered(c, s, Publish(token, outcome, toBacklog))
    ensures AssertsHold(c, s, Publish(token, outcome, toBacklog))
    ensures Inv(c, Apply(c, s, Publish(token, outcome, toBacklog)))
  {
    hide SlabOk, EntriesOk, ReadyOk, FlightOk, LeaseOk, FilesOk, RetireOk, BackendOk, KnownOk, ArenaOk, RoomOk,
         TokensOk, ScatterOk, CloseOk;
    PublishIsSafe(c, s, token, outcome, toBacklog);
    var s' := Apply(c, s, Publish(token, outcome, toBacklog));
    FlightPublish(s.sh.slots, s.executing, s.cq, token, s'.sh.slots[token.slot]);
    if EndingOf(EntryAt(s.sh.slots, token.slot), outcome).Freed? {
      FreedKeeps(c, s, token.slot, outcome, s');
    } else {
      HeldKeeps(c, s, token.slot, outcome, s');
    }
  }

  // ---------------------------------------------------------------- completions and leases

  lemma DrainKeeps(c: Config, s: System)
    requires c.Valid() && Inv(c, s) && Offered(c, s, Drain)
    ensures Inv(c, Apply(c, s, Drain))
  {
    hide SlabOk, EntriesOk, ReadyOk, FlightOk, LeaseOk, FilesOk, RetireOk, BackendOk, KnownOk, ArenaOk, RoomOk,
         TokensOk, ScatterOk, CloseOk;
    LeaseDrain(s.sh.slots, s.sh.backlog, s.held, s.tearing);
    RoomDrain(c, s.sh.slots, s.sh.backlog, s.sh.deferred, s.held, s.tearing);
  }

  lemma FlushKeeps(c: Config, s: System)
    requires c.Valid() && Inv(c, s) && Offered(c, s, Flush)
    ensures Inv(c, Apply(c, s, Flush))
  {
    assert RoomOk(c, s.sh.slots, s.sh.backlog, s.sh.deferred[1..], s.held, s.tearing);
    hide SlabOk, EntriesOk, ReadyOk, FlightOk, LeaseOk, FilesOk, RetireOk, BackendOk, KnownOk, ArenaOk, RoomOk,
         TokensOk, ScatterOk, CloseOk;
    RetireFlush(s.sh.files, s.sh.deferred, s.due, s.cleared);
  }

  lemma TeardownKeeps(c: Config, s: System)
    requires Inv(c, s)
    ensures Inv(c, s.(tearing := true))
  {
    assert LeaseOk(s.sh.slots, s.sh.backlog, s.held, true)
        && RoomOk(c, s.sh.slots, s.sh.backlog, s.sh.deferred, s.held, true);
    hide SlabOk, EntriesOk, ReadyOk, FlightOk, LeaseOk, FilesOk, RetireOk, BackendOk, KnownOk, ArenaOk, RoomOk,
         TokensOk, ScatterOk, CloseOk;
  }

  /** Giving back a held slot, apart from what it does to the lease itself. */
  lemma GiveBackKeeps(c: Config, s: System, slot: nat, s': System)
    requires c.Valid() && Inv(c, s) && IsHeld(s.sh.slots, slot) && CanComplete(s.sh.files, EntryAt(s.sh.slots, slot).fd)
    requires s' == GiveBack(c, s, slot).(held := s'.held)
    requires LeaseOk(s'.sh.slots, s'.sh.backlog, s'.held, s'.tearing)
    requires RoomOk(c, s'.sh.slots, s'.sh.backlog, s'.sh.deferred, s'.held, s'.tearing)
    ensures Inv(c, s')
  {
    hide SlabOk, EntriesOk, ReadyOk, FlightOk, LeaseOk, FilesOk, RetireOk, BackendOk, KnownOk, ArenaOk, RoomOk,
         TokensOk, ScatterOk, CloseOk;
    var e := EntryAt(s.sh.slots, slot);
    var slots, files := Vacate(s.sh.slots, slot), OnComplete(s.sh.files, e.fd);
    EntryFact(c, s.sh.slots, slot);
    VacateKeeps(c, s, slot);
    DrainedByComplete(s.sh.files, e.fd);
    FlightQuiet(s.sh.slots, s.executing, s.cq, slot, slots[slot]);
    TokensVacate(s.sh.slots, s.hist, slot, false);
    ScatterVacate(s.sh.slots, s.hist, slot);
    RetireDeferred(s.sh.files, files, s.sh.deferred, s.due, s.cleared, s'.sh.deferred[|s.sh.deferred|]);
  }

  lemma ReleaseIsSafe(c: Config, s: System, slot: nat)
    requires Inv(c, s) && IsHeld(s.sh.slots, slot)
    ensures ReleaseSafe(c, s, slot)
  {
    hide SlabOk, EntriesOk, ReadyOk, FlightOk, LeaseOk, FilesOk, RetireOk, BackendOk, KnownOk, ArenaOk, RoomOk,
         TokensOk, ScatterOk, CloseOk;
    EntryFact(c, s.sh.slots, slot);
    FilesCount(s.sh.slots, s.sh.files, slot);
    RoomForDeferred(c, s.sh.slots, s.sh.backlog, s.sh.deferred, s.held, s.tearing, slot);
  }

  /** Dropping a lease is always safe: a live one is on a held operation, a stale one does nothing. */
  lemma DropLeaseKeeps(c: Config, s: System, token: OpToken)
    requires c.Valid() && Inv(c, s) && Offered(c, s, DropLease(token))
    ensures AssertsHold(c, s, DropLease(token)) && Inv(c, Apply(c, s, DropLease(token)))
  {
    hide SlabOk, EntriesOk, ReadyOk, FlightOk, LeaseOk, FilesOk, RetireOk, BackendOk, KnownOk, ArenaOk, RoomOk,
         TokensOk, ScatterOk, CloseOk;
    if Contains(s.sh.slots, token) {
      var x := Vacate(s.sh.slots, token.slot)[token.slot];
      LeaseReturn(s.sh.slots, s.sh.backlog, s.held, s.tearing, token, x);
      ReleaseIsSafe(c, s, token.slot);
      var s' := Apply(c, s, DropLease(token));
      RoomReturn(c, s.sh.slots, s.sh.backlog, s.sh.deferred, s.held, s.tearing, token, x,
                 s'.sh.deferred[|s.sh.deferred|]);
      GiveBackKeeps(c, s, token.slot, s');
    } else {
      LeaseStale(s.sh.slots, s.sh.backlog, s.held, s.tearing, token);
      RoomStale(c, s.sh.slots, s.sh.backlog, s.sh.deferred, s.held, s.held - {token});
    }
  }

  /** Before teardown every lease a caller holds is live, and fits its operation. */
  lemma LeaseIsLive(c: Config, s: System, token: OpToken)
    requires Inv(c, s) && token in s.held && (s.tearing ==> Contains(s.sh.slots, token))
    ensures HeldToken(s.sh.slots, token) && Matches(s.held[token], EntryAt(s.sh.slots, token.slot))
  {
    assert Leases(s.held, s.sh.backlog, token) >= 1;
  }

  lemma ContinueKeeps(c: Config, s: System, token: OpToken)
    requires c.Valid() && Inv(c, s) && Offered(c, s, Continue(token))
    requires s.tearing ==> Contains(s.sh.slots, token)
    ensures AssertsHold(c, s, Continue(token)) && Inv(c, Apply(c, s, Continue(token)))
  {
    hide SlabOk, EntriesOk, ReadyOk, FlightOk, LeaseOk, FilesOk, RetireOk, BackendOk, KnownOk, ArenaOk, RoomOk,
         TokensOk, ScatterOk, CloseOk;
    LeaseIsLive(c, s, token);
    EntryFact(c, s.sh.slots, token.slot);
    var e := EntryAt(s.sh.slots, token.slot).(frame := true, retries := 0, state := Queued);
    var x := SetEntry(s.sh.slots, token.slot, e)[token.slot];
    RestateKeeps(c, s, token.slot, e);
    ReadyPush(s.sh.slots, s.sh.ready, token.slot, e);
    SlabSize(c, s.sh.slots, s.sh.free);
    FlightQuiet(s.sh.slots, s.executing, s.cq, token.slot, x);
    LeaseReturn(s.sh.slots, s.sh.backlog, s.held, s.tearing, token, x);
    RoomReturn(c, s.sh.slots, s.sh.backlog, s.sh.deferred, s.held, s.tearing, token, x, Deferred(e.fd, false, Ok(0)));
    TokensRestate(s.sh.slots, s.hist, token.slot, e);
  }

  lemma AbandonKeeps(c: Config, s: System, slot: nat)
    requires c.Valid() && Inv(c, s) && Offered(c, s, Abandon(slot))
    ensures AssertsHold(c, s, Abandon(slot)) && Inv(c, Apply(c, s, Abandon(slot)))
  {
    hide SlabOk, EntriesOk, ReadyOk, FlightOk, LeaseOk, FilesOk, RetireOk, BackendOk, KnownOk, ArenaOk, RoomOk,
         TokensOk, ScatterOk, CloseOk;
    ReleaseIsSafe(c, s, slot);
    var s' := Apply(c, s, Abandon(slot));
    LeaseAbandon(s.sh.slots, s.sh.backlog, s.held, slot);
    RoomAbandon(c, s.sh.slots, s.sh.backlog, s.sh.deferred, s.held, slot, s'.sh.deferred[|s.sh.deferred|]);
    GiveBackKeeps(c, s, slot, s');
  }

  // ---------------------------------------------------------------- all steps

  /** The one assert a run can reach: teardown drains a partial read out of the backlog after
      abandoning it, and then tries to continue it. */
  predicate StaleContinue(s: System, step: Step) {
    step.Continue? && s.tearing && !Contains(s.sh.slots, step.token)
  }

  lemma PlainEffects(c: Config, s: System, step: Step)
    requires c.Valid() && Offered(c, s, step) && (step.Post? || step.Teardown?)
    ensures AssertsHold(c, s, step)
    ensures Apply(c, s, step) ==
            if step.Post? then
              s.(executing := s.executing - {step.token},
                 cq := s.cq[..step.at] + [Cqe(step.token, step.raw)] + s.cq[step.at..])
            else s.(tearing := true)
  {
  }

  /** Every step keeps the invariant and passes every assert, but for the one exception. */
  lemma StepKeeps(c: Config, s: System, step: Step)
    requires c.Valid() && Inv(c, s) && Offered(c, s, step) && !Exhausted(c, s, step) && !StaleContinue(s, step)
    ensures AssertsHold(c, s, step) && Inv(c, Apply(c, s, step))
  {
    hide Inv, Exhausted, Apply;
    match step
    case ReserveFile => ReserveFileKeeps(c, s);
    case RegisterFile(id) => RegisterFileKeeps(c, s, id);
    case AbortFile(id) => AbortFileKeeps(c, s, id);
    case Close(id) => CloseKeeps(c, s, id);
    case RetireBackend(id) => RetireBackendKeeps(c, s, id);
    case FinishRetire(id) => FinishRetireKeeps(c, s, id);
    case AllocWrite(_) => WriteSlotKeeps(c, s, step);
    case DropWrite(_) => WriteSlotKeeps(c, s, step);
    case Seek => SeekKeeps(c, s, step);
    case Skip(_) => SeekKeeps(c, s, step);
    case Submit(req, position) => SubmitKeeps(c, s, req, position);
    case Prepare => PrepareKeeps(c, s);
    case Post(token, raw, at) =>
      PlainEffects(c, s, step);
      PostKeeps(c, s, token, raw, at, Apply(c, s, step));
    case Reap => ReapKeeps(c, s);
    case Publish(token, outcome, toBacklog) => PublishKeeps(c, s, token, outcome, toBacklog);
    case Drain => DrainKeeps(c, s);
    case DropLease(token) => DropLeaseKeeps(c, s, token);
    case Continue(token) => ContinueKeeps(c, s, token);
    case Flush => FlushKeeps(c, s);
    case Teardown =>
      PlainEffects(c, s, step);
      TeardownKeeps(c, s);
    case Abandon(slot) => AbandonKeeps(c, s, slot);
  }
}
