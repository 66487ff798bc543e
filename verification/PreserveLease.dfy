/** How each step keeps read leases matched to held operations, and everything within capacity. */
module PreserveLease {
  import opened Types
  import opened Counting
  import opened Ops
  import opened Core
  import opened Invariant

  type Callers = map<OpToken, Lease>

  /** A slot that is not held before or after the change. */
  lemma LeaseQuiet(slots: seq<SlabSlot>, backlog: seq<Completion>, held: Callers, tearing: bool, i: nat, x: SlabSlot)
    requires LeaseOk(slots, backlog, held, tearing) && i < |slots|
    requires !IsHeld(slots, i) && (x.payload.Some? ==> !x.payload.value.state.Held())
    requires tearing ==> x.generation == slots[i].generation && slots[i].payload.Some?
    ensures LeaseOk(slots[i := x], backlog, held, tearing)
  {
    var slots' := slots[i := x];
    forall t: OpToken ensures
      && HeldToken(slots', t) == HeldToken(slots, t)
      && (tearing && Contains(slots', t) ==> Contains(slots, t))
    {}
  }

  /** The operation becomes held and its completion goes to the caller. */
  lemma LeaseGive(slots: seq<SlabSlot>, backlog: seq<Completion>, held: Callers, tearing: bool, i: nat, e: Entry,
                  l: Lease)
    requires LeaseOk(slots, backlog, held, tearing) && Occupied(slots, i) && !IsHeld(slots, i)
    requires e.state.Held() && Matches(l, e)
    ensures TokenAt(slots, i) !in held
    ensures LeaseOk(SetEntry(slots, i, e), backlog, held[TokenAt(slots, i) := l], tearing)
  {
    var slots', mine := SetEntry(slots, i, e), TokenAt(slots, i);
    var held' := held[mine := l];
    assert Contains(slots, mine) && !HeldToken(slots, mine);
    assert Leases(held, backlog, mine) == 0;
    forall t: OpToken ensures t != mine ==>
      && HeldToken(slots', t) == HeldToken(slots, t) && Contains(slots', t) == Contains(slots, t)
      && Leases(held', backlog, t) == Leases(held, backlog, t)
    {}
    forall k: nat | k < |backlog| && backlog[k].lease.Some? && HeldToken(slots', backlog[k].token)
      ensures Matches(backlog[k].lease.value, slots'[backlog[k].token.slot].payload.value)
    {
      if backlog[k].token == mine { CountMember(backlog, k, LeaseOf(mine)); }
    }
  }

  /** The operation becomes held and its completion waits in the backlog. */
  lemma LeaseStore(slots: seq<SlabSlot>, backlog: seq<Completion>, held: Callers, tearing: bool, i: nat, e: Entry,
                   done: Completion)
    requires LeaseOk(slots, backlog, held, tearing) && Occupied(slots, i) && !IsHeld(slots, i)
    requires e.state.Held() && done.token == TokenAt(slots, i) && done.lease.Some? && Matches(done.lease.value, e)
    ensures LeaseOk(SetEntry(slots, i, e), backlog + [done], held, tearing)
  {
    hide Count;
    var slots', mine := SetEntry(slots, i, e), TokenAt(slots, i);
    var backlog' := backlog + [done];
    assert Contains(slots, mine) && !HeldToken(slots, mine);
    assert Leases(held, backlog, mine) == 0;
    forall t: OpToken ensures
      && Leases(held, backlog', t) == Leases(held, backlog, t) + One(t == mine)
      && (t != mine ==> HeldToken(slots', t) == HeldToken(slots, t) && Contains(slots', t) == Contains(slots, t))
    {
      CountAppend(backlog, done, LeaseOf(t));
    }
    forall k: nat | k < |backlog'| && backlog'[k].lease.Some? && HeldToken(slots', backlog'[k].token)
      ensures Matches(backlog'[k].lease.value, slots'[backlog'[k].token.slot].payload.value)
    {
      if k < |backlog| && backlog[k].token == mine { CountMember(backlog, k, LeaseOf(mine)); }
    }
  }

  /** A completion without a lease joins the backlog. */
  lemma LeaseIgnore(slots: seq<SlabSlot>, backlog: seq<Completion>, held: Callers, tearing: bool, done: Completion)
    requires LeaseOk(slots, backlog, held, tearing) && done.lease.None?
    ensures LeaseOk(slots, backlog + [done], held, tearing)
  {
    forall t: OpToken ensures Leases(held, backlog + [done], t) == Leases(held, backlog, t) {
      CountAppend(backlog, done, LeaseOf(t));
    }
  }

  /** The head of the backlog reaches the caller. */
  lemma LeaseDrain(slots: seq<SlabSlot>, backlog: seq<Completion>, held: Callers, tearing: bool)
    requires LeaseOk(slots, backlog, held, tearing) && backlog != []
    ensures backlog[0].lease.Some? ==> backlog[0].token !in held
    ensures LeaseOk(slots, backlog[1..],
                    if backlog[0].lease.Some? then held[backlog[0].token := backlog[0].lease.value] else held, tearing)
  {
    var done := backlog[0];
    var held' := if done.lease.Some? then held[done.token := done.lease.value] else held;
    if done.lease.Some? {
      CountMember(backlog, 0, LeaseOf(done.token));
      assert Leases(held, backlog, done.token) <= 1;
    }
    forall t: OpToken ensures Leases(held', backlog[1..], t) == Leases(held, backlog, t) {
      assert Count(backlog, LeaseOf(t)) == One(LeaseOf(t)(backlog[0])) + Count(backlog[1..], LeaseOf(t));
    }
    forall k: nat | k < |backlog[1..]| && backlog[1..][k].lease.Some? && HeldToken(slots, backlog[1..][k].token)
      ensures Matches(backlog[1..][k].lease.value, slots[backlog[1..][k].token.slot].payload.value)
    {
      assert backlog[1..][k] == backlog[k + 1];
    }
  }

  /** A caller's lease ends together with the operation's hold on its slot. */
  lemma LeaseReturn(slots: seq<SlabSlot>, backlog: seq<Completion>, held: Callers, tearing: bool, t: OpToken,
                    x: SlabSlot)
    requires LeaseOk(slots, backlog, held, tearing) && t in held && Contains(slots, t)
    requires x.generation == t.generation && (x.payload.Some? ==> !x.payload.value.state.Held())
    ensures HeldToken(slots, t)
    ensures LeaseOk(slots[t.slot := x], backlog, held - {t}, tearing)
  {
    var slots', held' := slots[t.slot := x], held - {t};
    assert Leases(held, backlog, t) >= 1;
    forall u: OpToken ensures u != t ==>
      && HeldToken(slots', u) == HeldToken(slots, u) && Contains(slots', u) == Contains(slots, u)
      && Leases(held', backlog, u) == Leases(held, backlog, u)
    {}
    assert Leases(held', backlog, t) == 0 && !HeldToken(slots', t);
  }

  /** A lease whose operation was abandoned is dropped without effect. */
  lemma LeaseStale(slots: seq<SlabSlot>, backlog: seq<Completion>, held: Callers, tearing: bool, t: OpToken)
    requires LeaseOk(slots, backlog, held, tearing) && t in held && !Contains(slots, t)
    ensures t.slot < |slots|
    ensures tearing && LeaseOk(slots, backlog, held - {t}, tearing)
  {
    assert Leases(held, backlog, t) >= 1;
    forall u: OpToken ensures Leases(held - {t}, backlog, u) <= Leases(held, backlog, u)
      && (u != t ==> Leases(held - {t}, backlog, u) == Leases(held, backlog, u)) {}
  }

  /** A lease in the backlog whose operation no longer holds its slot was abandoned. */
  lemma LeaseAbandoned(slots: seq<SlabSlot>, backlog: seq<Completion>, held: Callers, tearing: bool, k: nat)
    requires LeaseOk(slots, backlog, held, tearing) && k < |backlog| && backlog[k].lease.Some?
    requires !HeldToken(slots, backlog[k].token)
    ensures !Contains(slots, backlog[k].token)
  {
    CountMember(backlog, k, LeaseOf(backlog[k].token));
    assert Leases(held, backlog, backlog[k].token) >= 1;
  }

  /** Teardown frees a held slot and leaves its lease behind. */
  lemma LeaseAbandon(slots: seq<SlabSlot>, backlog: seq<Completion>, held: Callers, i: nat)
    requires LeaseOk(slots, backlog, held, true) && IsHeld(slots, i)
    ensures LeaseOk(Vacate(slots, i), backlog, held, true)
  {
    var slots' := Vacate(slots, i);
    forall t: OpToken ensures t != TokenAt(slots, i) ==>
      HeldToken(slots', t) == HeldToken(slots, t) && Contains(slots', t) == Contains(slots, t) {}
  }

  // ---------------------------------------------------------------- capacity

  lemma {:induction false} LeasedOrFinal(backlog: seq<Completion>)
    ensures Count(backlog, Leased()) + Count(backlog, Final()) == |backlog|
  {
    if backlog != [] { LeasedOrFinal(backlog[1..]); }
  }

  /** Held operations are some of the operations, and an operation outside them leaves room. */
  lemma HeldFewer(slots: seq<SlabSlot>, i: nat)
    requires Occupied(slots, i) && !IsHeld(slots, i)
    ensures Count(slots, Leaving()) < Count(slots, Filled())
  {
    CountUpdate(slots, i, Vacate(slots, i)[i], Filled());
    CountUpdate(slots, i, Vacate(slots, i)[i], Leaving());
    CountImplies(Vacate(slots, i), Leaving(), Filled());
  }

  /** Before teardown the backlog has room for the completion of any active operation. */
  lemma RoomForCompletion(c: Config, slots: seq<SlabSlot>, backlog: seq<Completion>, deferred: seq<Deferred>,
                          held: Callers, i: nat)
    requires RoomOk(c, slots, backlog, deferred, held, false) && Occupied(slots, i) && !IsHeld(slots, i)
    ensures |backlog| < c.capacity
  {
    LeasedOrFinal(backlog);
    HeldFewer(slots, i);
  }

  lemma RoomFill(c: Config, slots: seq<SlabSlot>, backlog: seq<Completion>, deferred: seq<Deferred>, held: Callers,
                 tearing: bool, i: nat, e: Entry)
    requires RoomOk(c, slots, backlog, deferred, held, tearing) && i < |slots| && !Occupied(slots, i)
    requires !e.state.Held() && Count(slots, Filled()) + |backlog| + |deferred| < c.capacity
    ensures RoomOk(c, Fill(slots, i, e), backlog, deferred, held, tearing)
  {
    CountUpdate(slots, i, Fill(slots, i, e)[i], Filled());
    CountUpdate(slots, i, Fill(slots, i, e)[i], Leaving());
    CountBounds(backlog, Final());
  }

  /** An operation that is held neither before nor after changes, and maybe frees its slot; then
      `done`, if any, is its final completion entering the backlog. */
  lemma RoomQuiet(c: Config, slots: seq<SlabSlot>, backlog: seq<Completion>, deferred: seq<Deferred>, held: Callers,
                  tearing: bool, i: nat, x: SlabSlot, done: Option<Completion>)
    requires RoomOk(c, slots, backlog, deferred, held, tearing) && Occupied(slots, i) && !IsHeld(slots, i)
    requires x.payload.Some? ==> !x.payload.value.state.Held()
    requires done.Some? ==> x.payload.None? && done.value.lease.None?
    ensures RoomOk(c, slots[i := x], if done.Some? then backlog + [done.value] else backlog, deferred, held, tearing)
  {
    CountUpdate(slots, i, x, Filled());
    CountUpdate(slots, i, x, Leaving());
    if done.Some? {
      CountAppend(backlog, done.value, Final());
      CountAppend(backlog, done.value, Leased());
    }
  }

  lemma RoomGive(c: Config, slots: seq<SlabSlot>, backlog: seq<Completion>, deferred: seq<Deferred>, held: Callers,
                 tearing: bool, i: nat, e: Entry, l: Lease)
    requires RoomOk(c, slots, backlog, deferred, held, tearing) && Occupied(slots, i) && !IsHeld(slots, i)
    requires e.state.Held() && TokenAt(slots, i) !in held
    ensures RoomOk(c, SetEntry(slots, i, e), backlog, deferred, held[TokenAt(slots, i) := l], tearing)
  {
    CountUpdate(slots, i, SetEntry(slots, i, e)[i], Filled());
    CountUpdate(slots, i, SetEntry(slots, i, e)[i], Leaving());
  }

  lemma RoomStore(c: Config, slots: seq<SlabSlot>, backlog: seq<Completion>, deferred: seq<Deferred>, held: Callers,
                  tearing: bool, i: nat, e: Entry, done: Completion)
    requires RoomOk(c, slots, backlog, deferred, held, tearing) && Occupied(slots, i) && !IsHeld(slots, i)
    requires e.state.Held() && done.lease.Some?
    ensures RoomOk(c, SetEntry(slots, i, e), backlog + [done], deferred, held, tearing)
  {
    CountUpdate(slots, i, SetEntry(slots, i, e)[i], Filled());
    CountUpdate(slots, i, SetEntry(slots, i, e)[i], Leaving());
    CountAppend(backlog, done, Final());
    CountAppend(backlog, done, Leased());
  }

  lemma RoomDrain(c: Config, slots: seq<SlabSlot>, backlog: seq<Completion>, deferred: seq<Deferred>, held: Callers,
                  tearing: bool)
    requires RoomOk(c, slots, backlog, deferred, held, tearing) && backlog != []
    requires backlog[0].lease.Some? ==> backlog[0].token !in held
    ensures RoomOk(c, slots, backlog[1..], deferred,
                   if backlog[0].lease.Some? then held[backlog[0].token := backlog[0].lease.value] else held, tearing)
  {
  }

  /** A caller's lease ends: the operation is requeued, or freed with a deferred completion. */
  lemma RoomReturn(c: Config, slots: seq<SlabSlot>, backlog: seq<Completion>, deferred: seq<Deferred>, held: Callers,
                   tearing: bool, t: OpToken, x: SlabSlot, d: Deferred)
    requires RoomOk(c, slots, backlog, deferred, held, tearing) && t in held && HeldToken(slots, t)
    requires x.payload.Some? ==> !x.payload.value.state.Held()
    ensures RoomOk(c, slots[t.slot := x], backlog, if x.payload.None? then deferred + [d] else deferred,
                   held - {t}, tearing)
  {
    CountUpdate(slots, t.slot, x, Filled());
    CountUpdate(slots, t.slot, x, Leaving());
    assert (held - {t}).Keys == held.Keys - {t};
  }

  lemma RoomStale(c: Config, slots: seq<SlabSlot>, backlog: seq<Completion>, deferred: seq<Deferred>, held: Callers,
                  held': Callers)
    requires RoomOk(c, slots, backlog, deferred, held, true)
    ensures RoomOk(c, slots, backlog, deferred, held', true)
  {
  }

  lemma RoomAbandon(c: Config, slots: seq<SlabSlot>, backlog: seq<Completion>, deferred: seq<Deferred>, held: Callers,
                    i: nat, d: Deferred)
    requires RoomOk(c, slots, backlog, deferred, held, true) && IsHeld(slots, i)
    ensures RoomOk(c, Vacate(slots, i), backlog, deferred + [d], held, true)
  {
    CountUpdate(slots, i, Vacate(slots, i)[i], Filled());
  }

  /** While an operation occupies a slot, one more deferred completion fits. */
  lemma RoomForDeferred(c: Config, slots: seq<SlabSlot>, backlog: seq<Completion>, deferred: seq<Deferred>,
                        held: Callers, tearing: bool, i: nat)
    requires RoomOk(c, slots, backlog, deferred, held, tearing) && Occupied(slots, i)
    ensures |deferred| < c.capacity
  {
    CountMember(slots, i, Filled());
  }
}
