/** How each step keeps file counts, deferred retirement, backend registration and close history. */
module PreserveFiles {
  import opened Types
  import opened Counting
  import opened Ops
  import opened Core
  import opened Invariant

  // ---------------------------------------------------------------- in-flight counts

  lemma {:induction false} TotalUpdate(files: seq<FileSlot>, f: nat, x: FileSlot)
    requires f < |files|
    ensures TotalInflight(files[f := x]) + files[f].inflight == TotalInflight(files) + x.inflight
  {
    if f == 0 {
      assert files[f := x][1..] == files[1..];
    } else {
      assert files[f := x][1..] == files[1..][f - 1 := x];
      TotalUpdate(files[1..], f - 1, x);
    }
  }

  lemma FilesTotal(slots: seq<SlabSlot>, files: seq<FileSlot>)
    requires FilesOk(slots, files)
    ensures TotalInflight(files) == Count(slots, Filled())
  {
  }

  lemma FilesFill(slots: seq<SlabSlot>, files: seq<FileSlot>, i: nat, e: Entry)
    requires FilesOk(slots, files) && i < |slots| && !Occupied(slots, i) && IsLive(files, e.fd)
    ensures FilesOk(Fill(slots, i, e), OnSubmit(files, e.fd))
  {
    var slots', files' := Fill(slots, i, e), OnSubmit(files, e.fd);
    CountUpdate(slots, i, slots'[i], Filled());
    TotalUpdate(files, e.fd.slot, files'[e.fd.slot]);
    forall f: nat | f < |files'| ensures files'[f].inflight == Count(slots', OnFile(f)) {
      CountUpdate(slots, i, slots'[i], OnFile(f));
    }
    forall j: nat | Occupied(slots', j) ensures
      Current(files', slots'[j].payload.value.fd) && Serving(files'[slots'[j].payload.value.fd.slot])
    {
      if j != i { assert Occupied(slots, j); }
    }
  }

  lemma FilesRestate(slots: seq<SlabSlot>, files: seq<FileSlot>, i: nat, e: Entry)
    requires FilesOk(slots, files) && Occupied(slots, i) && e.fd == EntryAt(slots, i).fd
    ensures FilesOk(SetEntry(slots, i, e), files)
  {
    var slots' := SetEntry(slots, i, e);
    CountUpdate(slots, i, slots'[i], Filled());
    forall f: nat | f < |files| ensures files[f].inflight == Count(slots', OnFile(f)) {
      CountUpdate(slots, i, slots'[i], OnFile(f));
    }
    assert forall j: nat | Occupied(slots', j) :: Occupied(slots, j);
  }

  /** An operation's file can count its completion. */
  lemma FilesCount(slots: seq<SlabSlot>, files: seq<FileSlot>, i: nat)
    requires FilesOk(slots, files) && Occupied(slots, i)
    ensures CanComplete(files, EntryAt(slots, i).fd) && Serving(files[EntryAt(slots, i).fd.slot])
  {
    CountMember(slots, i, OnFile(EntryAt(slots, i).fd.slot));
  }

  lemma FilesVacate(slots: seq<SlabSlot>, files: seq<FileSlot>, i: nat)
    requires FilesOk(slots, files) && Occupied(slots, i) && CanComplete(files, EntryAt(slots, i).fd)
    ensures FilesOk(Vacate(slots, i), OnComplete(files, EntryAt(slots, i).fd))
  {
    var fd := EntryAt(slots, i).fd;
    var slots', files' := Vacate(slots, i), OnComplete(files, fd);
    CountUpdate(slots, i, slots'[i], Filled());
    TotalUpdate(files, fd.slot, files'[fd.slot]);
    forall f: nat | f < |files'| ensures files'[f].inflight == Count(slots', OnFile(f)) {
      CountUpdate(slots, i, slots'[i], OnFile(f));
    }
    forall j: nat | Occupied(slots', j) ensures
      Current(files', slots'[j].payload.value.fd) && Serving(files'[slots'[j].payload.value.fd.slot])
    {
      assert Occupied(slots, j);
    }
  }

  /** A file changes without operations on it, or keeps its generation and goes on serving. */
  lemma FilesChange(slots: seq<SlabSlot>, files: seq<FileSlot>, f: nat, x: FileSlot)
    requires FilesOk(slots, files) && f < |files| && x.inflight == files[f].inflight
    requires x.inflight == 0 || (x.generation == files[f].generation && Serving(x))
    ensures FilesOk(slots, files[f := x])
  {
    var files' := files[f := x];
    TotalUpdate(files, f, x);
    forall j: nat | Occupied(slots, j) ensures
      Current(files', slots[j].payload.value.fd) && Serving(files'[slots[j].payload.value.fd.slot])
    {
      if slots[j].payload.value.fd.slot == f { CountMember(slots, j, OnFile(f)); }
    }
  }

  // ---------------------------------------------------------------- retirement

  /** Nothing became or stopped being drained. */
  lemma RetireQuiet(files: seq<FileSlot>, files': seq<FileSlot>, deferred: seq<Deferred>, due: set<FileId>,
                    cleared: set<FileId>)
    requires RetireOk(files, deferred, due, cleared)
    requires forall id: FileId :: Drained(files', id) == Drained(files, id)
    ensures RetireOk(files', deferred, due, cleared)
  {
  }

  /** One file became drained, and a thread is now to retire it. */
  lemma RetireDue(files: seq<FileSlot>, files': seq<FileSlot>, deferred: seq<Deferred>, due: set<FileId>,
                  cleared: set<FileId>, id: FileId)
    requires RetireOk(files, deferred, due, cleared)
    requires forall other: FileId | other != id :: Drained(files', other) == Drained(files, other)
    requires Drained(files', id) && !Drained(files, id)
    ensures id !in due && RetireOk(files', deferred, due + {id}, cleared)
  {
    assert Retiring(deferred, due, cleared, id) == 0;
    forall other: FileId ensures Retiring(deferred, due + {id}, cleared, other) == One(Drained(files', other)) {
      assert Retiring(deferred, due, cleared, other) == One(Drained(files, other));
    }
  }

  /** A deferred completion records whether it drained its file. */
  lemma RetireDeferred(files: seq<FileSlot>, files': seq<FileSlot>, deferred: seq<Deferred>, due: set<FileId>,
                       cleared: set<FileId>, d: Deferred)
    requires RetireOk(files, deferred, due, cleared)
    requires forall other: FileId | other != d.fd :: Drained(files', other) == Drained(files, other)
    requires !Drained(files, d.fd) && d.retire == Drained(files', d.fd)
    ensures RetireOk(files', deferred + [d], due, cleared)
  {
    forall other: FileId ensures Retiring(deferred + [d], due, cleared, other) == One(Drained(files', other)) {
      CountAppend(deferred, d, RetireOf(other));
      assert Retiring(deferred, due, cleared, other) == One(Drained(files, other));
    }
  }

  lemma RetireFlush(files: seq<FileSlot>, deferred: seq<Deferred>, due: set<FileId>, cleared: set<FileId>)
    requires RetireOk(files, deferred, due, cleared) && deferred != []
    ensures deferred[0].retire ==> deferred[0].fd !in due
    ensures RetireOk(files, deferred[1..], if deferred[0].retire then due + {deferred[0].fd} else due, cleared)
  {
    var d := deferred[0];
    if d.retire {
      CountMember(deferred, 0, RetireOf(d.fd));
      assert Retiring(deferred, due, cleared, d.fd) <= 1;
    }
    forall id: FileId ensures
      Retiring(deferred[1..], if d.retire then due + {d.fd} else due, cleared, id) == One(Drained(files, id))
    {
      assert Retiring(deferred, due, cleared, id) == One(Drained(files, id));
      assert Count(deferred, RetireOf(id)) == One(RetireOf(id)(d)) + Count(deferred[1..], RetireOf(id));
    }
  }

  lemma RetireMove(files: seq<FileSlot>, deferred: seq<Deferred>, due: set<FileId>, cleared: set<FileId>, id: FileId)
    requires RetireOk(files, deferred, due, cleared) && id in due
    ensures Drained(files, id) && id !in cleared
    ensures RetireOk(files, deferred, due - {id}, cleared + {id})
  {
    assert Retiring(deferred, due, cleared, id) == One(Drained(files, id));
    forall other: FileId ensures Retiring(deferred, due - {id}, cleared + {id}, other) == One(Drained(files, other)) {
      assert Retiring(deferred, due, cleared, other) == One(Drained(files, other));
    }
  }

  /** Whatever is being retired is drained. */
  lemma RetireFact(files: seq<FileSlot>, deferred: seq<Deferred>, due: set<FileId>, cleared: set<FileId>)
    requires RetireOk(files, deferred, due, cleared)
    ensures forall id | id in due || id in cleared :: Drained(files, id)
  {
    forall id | id in due || id in cleared ensures Drained(files, id) {
      assert Retiring(deferred, due, cleared, id) == One(Drained(files, id));
    }
  }

  lemma RetireFinish(files: seq<FileSlot>, deferred: seq<Deferred>, due: set<FileId>, cleared: set<FileId>, id: FileId)
    requires RetireOk(files, deferred, due, cleared) && id in cleared && id.slot < |files|
    ensures Drained(files, id)
    ensures RetireOk(SetState(files, id, Closed), deferred, due, cleared - {id})
  {
    assert Retiring(deferred, due, cleared, id) == One(Drained(files, id));
    var files' := SetState(files, id, Closed);
    forall other: FileId ensures Retiring(deferred, due, cleared - {id}, other) == One(Drained(files', other)) {
      assert Retiring(deferred, due, cleared, other) == One(Drained(files, other));
      assert other != id ==> Drained(files', other) == Drained(files, other);
    }
  }

  // ---------------------------------------------------------------- close history

  /** A file being retired was closed and counts as due. */
  lemma CloseDue(files: seq<FileSlot>, h: History, id: FileId)
    requires CloseOk(files, h.closed, h.due, h.retired)
    ensures h.due[id] <= 1 && (Drained(files, id) ==> h.due[id] == 1)
  {
    if Drained(files, id) { assert IdAt(files, id.slot) == id; }
  }

  lemma CloseQuiet(files: seq<FileSlot>, files': seq<FileSlot>, h: History)
    requires CloseOk(files, h.closed, h.due, h.retired) && |files'| == |files|
    requires forall f: nat | f < |files| ::
               files'[f].generation == files[f].generation && files'[f].state == files[f].state
    requires forall id: FileId :: Draining(files', id) == Draining(files, id)
    ensures CloseOk(files', h.closed, h.due, h.retired)
  {
    assert forall id: FileId :: Gone(files', id) == Gone(files, id);
  }

  /** An operation completes; if that drained its closing file, the file becomes due. */
  lemma CompleteDraining(files: seq<FileSlot>, fd: FileId)
    requires CanComplete(files, fd)
    ensures var files' := OnComplete(files, fd);
            && (forall id: FileId :: Gone(files', id) == Gone(files, id))
            && (forall id: FileId | id != fd :: Draining(files', id) == Draining(files, id))
            && (if Drained(files', fd) then Draining(files, fd) && !Draining(files', fd)
                else Draining(files', fd) == Draining(files, fd))
            && (Draining(files, fd) ==> files[fd.slot].state.Closing? && IdAt(files, fd.slot) == fd)
  {
  }

  lemma CloseComplete(files: seq<FileSlot>, h: History, fd: FileId)
    requires CloseOk(files, h.closed, h.due, h.retired) && CanComplete(files, fd)
    ensures var files' := OnComplete(files, fd);
            CloseOk(files', h.closed, if Drained(files', fd) then h.due + multiset{fd} else h.due, h.retired)
  {
    hide Gone, Draining, Drained;
    CompleteDraining(files, fd);
  }

  lemma CloseOpen(files: seq<FileSlot>, h: History, f: nat)
    requires CloseOk(files, h.closed, h.due, h.retired) && f < |files| && Reusable(files[f])
    ensures CloseOk(OpenFile(files, f), h.closed, h.due, h.retired)
  {
    var files' := OpenFile(files, f);
    forall id: FileId | id in h.closed ensures Gone(files', id) == Gone(files, id) {}
    assert forall id: FileId :: Draining(files', id) == Draining(files, id);
  }

  lemma CloseAbort(files: seq<FileSlot>, h: History, id: FileId)
    requires CloseOk(files, h.closed, h.due, h.retired) && IsLive(files, id)
    ensures CloseOk(SetState(files, id, Free), h.closed, h.due, h.retired)
  {
    var files' := SetState(files, id, Free);
    assert forall other: FileId ::
        Gone(files', other) == Gone(files, other) && Draining(files', other) == Draining(files, other);
  }

  lemma CloseClose(files: seq<FileSlot>, h: History, id: FileId)
    requires CloseOk(files, h.closed, h.due, h.retired) && IsLive(files, id)
    ensures var files' := SetState(files, id, Closing);
            && id !in h.closed
            && CloseOk(files', h.closed + {id},
                       if files'[id.slot].inflight == 0 then h.due + multiset{id} else h.due, h.retired)
  {
    var files' := SetState(files, id, Closing);
    assert !Gone(files, id) && !Gone(files', id);
    assert forall other: FileId | other != id ::
        Gone(files', other) == Gone(files, other) && Draining(files', other) == Draining(files, other);
  }

  lemma CloseFinish(files: seq<FileSlot>, h: History, id: FileId)
    requires CloseOk(files, h.closed, h.due, h.retired) && Drained(files, id)
    ensures CloseOk(SetState(files, id, Closed), h.closed, h.due, h.retired + multiset{id})
  {
    var files' := SetState(files, id, Closed);
    assert IdAt(files, id.slot) == id && id in h.closed;
    assert !Gone(files, id) && Gone(files', id);
    assert forall other: FileId | other != id :: Gone(files', other) == Gone(files, other);
    assert forall other: FileId :: Draining(files', other) == Draining(files, other);
  }

  // ---------------------------------------------------------------- backend registration

  /** The in-flight count changes of a file that operations can use. */
  lemma BackendCount(c: Config, s: System, fd: FileId, n: nat)
    requires BackendOk(c, s.sh.files, s.opening, s.handles, s.known, s.registered, s.cleared)
    requires fd in s.known && Current(s.sh.files, fd) && Serving(s.sh.files[fd.slot])
    ensures BackendOk(c, s.sh.files[fd.slot := s.sh.files[fd.slot].(inflight := n)],
                      s.opening, s.handles, s.known, s.registered, s.cleared)
  {
    var files' := s.sh.files[fd.slot := s.sh.files[fd.slot].(inflight := n)];
    forall id | id in s.opening ensures files'[id.slot].inflight == 0 {
      assert id.slot == fd.slot ==> id == fd;
    }
  }

  lemma BackendFacts(c: Config, s: System, id: FileId)
    requires BackendOk(c, s.sh.files, s.opening, s.handles, s.known, s.registered, s.cleared)
    ensures |s.registered| == |s.sh.files|
    ensures id in s.known ==> id.slot < |s.sh.files|
    ensures id in s.handles ==> IsLive(s.sh.files, id)
    ensures id in s.opening ==> IsLive(s.sh.files, id) && s.sh.files[id.slot].inflight == 0
    ensures id.slot < |s.sh.files| && Reusable(s.sh.files[id.slot]) ==> s.sh.files[id.slot].inflight == 0
  {
  }

  lemma BackendOpen(c: Config, s: System, f: nat)
    requires BackendOk(c, s.sh.files, s.opening, s.handles, s.known, s.registered, s.cleared)
    requires f < |s.sh.files| && Reusable(s.sh.files[f])
    requires forall id | id in s.cleared :: Drained(s.sh.files, id)
    ensures var files' := OpenFile(s.sh.files, f);
            BackendOk(c, files', s.opening + {IdAt(files', f)}, s.handles, s.known, s.registered, s.cleared)
  {
    var files, files' := s.sh.files, OpenFile(s.sh.files, f);
    forall g: nat | g < |files'| ensures
      s.registered[g] == if Backed(files', s.handles, s.cleared, g) then Some(files'[g].generation) else None
    {
      if g != f {
        assert IdAt(files', g) == IdAt(files, g);
      } else {
        assert IdAt(files', f) !in s.handles;
        assert !Backed(files, s.handles, s.cleared, f);
      }
    }
    forall id | id in s.opening ensures id.slot != f {}
    forall id | id in s.handles ensures id.slot != f {}
    forall g: nat | g < |files'| && files'[g].state.Open?
      ensures IdAt(files', g) in s.opening + {IdAt(files', f)} || IdAt(files', g) in s.handles
    {
      if g != f { assert IdAt(files', g) == IdAt(files, g); }
    }
  }

  lemma BackendRegister(c: Config, s: System, id: FileId)
    requires BackendOk(c, s.sh.files, s.opening, s.handles, s.known, s.registered, s.cleared)
    requires id in s.opening
    ensures id.slot < |s.registered| && s.registered[id.slot].None?
    ensures BackendOk(c, s.sh.files, s.opening - {id}, s.handles + {id}, s.known + {id},
                      s.registered[id.slot := Some(id.generation)], s.cleared)
  {
    var files := s.sh.files;
    assert IdAt(files, id.slot) == id;
    assert !Backed(files, s.handles, s.cleared, id.slot);
    forall g: nat | g < |files| ensures
      s.registered[id.slot := Some(id.generation)][g]
      == if Backed(files, s.handles + {id}, s.cleared, g) then Some(files[g].generation) else None
    {
      if g != id.slot { assert IdAt(files, g) != id; }
    }
  }

  lemma BackendAbort(c: Config, s: System, id: FileId)
    requires BackendOk(c, s.sh.files, s.opening, s.handles, s.known, s.registered, s.cleared)
    requires id in s.opening
    ensures BackendOk(c, SetState(s.sh.files, id, Free), s.opening - {id}, s.handles, s.known, s.registered, s.cleared)
  {
    var files, files' := s.sh.files, SetState(s.sh.files, id, Free);
    assert IdAt(files, id.slot) == id;
    forall g: nat | g < |files'| ensures IdAt(files', g) == IdAt(files, g)
      && (Backed(files', s.handles, s.cleared, g) == Backed(files, s.handles, s.cleared, g)) {}
    forall other | other in s.opening && other != id ensures other.slot != id.slot {}
  }

  lemma BackendClose(c: Config, s: System, id: FileId)
    requires BackendOk(c, s.sh.files, s.opening, s.handles, s.known, s.registered, s.cleared)
    requires id in s.handles && id !in s.cleared
    ensures BackendOk(c, SetState(s.sh.files, id, Closing), s.opening, s.handles - {id}, s.known, s.registered,
                      s.cleared)
  {
    var files, files' := s.sh.files, SetState(s.sh.files, id, Closing);
    assert IdAt(files, id.slot) == id;
    forall g: nat | g < |files'| ensures IdAt(files', g) == IdAt(files, g)
      && (Backed(files', s.handles - {id}, s.cleared, g) == Backed(files, s.handles, s.cleared, g)) {}
    forall other | other in s.opening || (other in s.handles && other != id) ensures other.slot != id.slot {}
  }

  lemma BackendRetire(c: Config, s: System, id: FileId)
    requires BackendOk(c, s.sh.files, s.opening, s.handles, s.known, s.registered, s.cleared)
    requires Drained(s.sh.files, id) && id !in s.cleared
    ensures s.registered[id.slot] == Some(id.generation)
    ensures BackendOk(c, s.sh.files, s.opening, s.handles, s.known, s.registered[id.slot := None], s.cleared + {id})
  {
    var files := s.sh.files;
    assert IdAt(files, id.slot) == id && Backed(files, s.handles, s.cleared, id.slot);
    assert id !in s.handles;
    forall g: nat | g < |files| && g != id.slot ensures
      Backed(files, s.handles, s.cleared + {id}, g) == Backed(files, s.handles, s.cleared, g) {}
  }

  lemma BackendFinish(c: Config, s: System, id: FileId)
    requires BackendOk(c, s.sh.files, s.opening, s.handles, s.known, s.registered, s.cleared)
    requires Drained(s.sh.files, id) && id in s.cleared
    ensures BackendOk(c, SetState(s.sh.files, id, Closed), s.opening, s.handles, s.known, s.registered,
                      s.cleared - {id})
  {
    var files, files' := s.sh.files, SetState(s.sh.files, id, Closed);
    assert IdAt(files, id.slot) == id && id !in s.handles;
    forall g: nat | g < |files'| ensures IdAt(files', g) == IdAt(files, g)
      && (Backed(files', s.handles, s.cleared - {id}, g) == Backed(files, s.handles, s.cleared, g)) {}
  }

  // ---------------------------------------------------------------- known handles

  lemma KnownFact(slots: seq<SlabSlot>, known: set<FileId>, i: nat)
    requires KnownOk(slots, known) && Occupied(slots, i)
    ensures EntryAt(slots, i).fd in known
  {
  }

  lemma KnownChange(slots: seq<SlabSlot>, known: set<FileId>, i: nat, x: SlabSlot)
    requires KnownOk(slots, known) && i < |slots|
    requires x.payload.Some? ==> x.payload.value.fd in known
    ensures KnownOk(slots[i := x], known)
  {
    assert forall j: nat | Occupied(slots[i := x], j) && j != i :: Occupied(slots, j);
  }
}
