/** How each kind of slot change keeps the slab's share of the invariant. */
module PreserveSlab {
  import opened Types
  import opened Counting
  import opened Ops
  import opened Core
  import opened Invariant

  // ---------------------------------------------------------------- entries

  lemma EntryFact(c: Config, slots: seq<SlabSlot>, i: nat)
    requires EntriesOk(c, slots) && Occupied(slots, i)
    ensures EntryOk(c, EntryAt(slots, i))
  {
  }

  lemma EntriesChange(c: Config, slots: seq<SlabSlot>, i: nat, x: SlabSlot)
    requires EntriesOk(c, slots) && i < |slots| && (x.payload.Some? ==> EntryOk(c, x.payload.value))
    ensures EntriesOk(c, slots[i := x])
  {
    assert forall j: nat | Occupied(slots[i := x], j) && j != i :: Occupied(slots, j);
  }

  // ---------------------------------------------------------------- free list

  lemma SlabSize(c: Config, slots: seq<SlabSlot>, free: seq<nat>)
    requires SlabOk(c, slots, free)
    ensures |slots| == c.capacity
  {
  }

  lemma SlabFill(c: Config, slots: seq<SlabSlot>, free: seq<nat>, i: nat, e: Entry)
    requires SlabOk(c, slots, free)
    requires free != [] && i == free[|free| - 1] && i < |slots| && slots[i].generation < U32_MAX
    ensures slots[i].payload.None?
    ensures SlabOk(c, Fill(slots, i, e), free[..|free| - 1])
  {
    var slots', free' := Fill(slots, i, e), free[..|free| - 1];
    CountMember(free, |free| - 1, Is(i));
    CountUpdate(slots, i, slots'[i], Filled());
    forall j: nat | j < |slots'| ensures Count(free', Is(j)) == One(slots'[j].payload.None?) {
      CountPop(free, Is(j));
    }
  }

  lemma SlabRestate(c: Config, slots: seq<SlabSlot>, free: seq<nat>, i: nat, e: Entry)
    requires SlabOk(c, slots, free) && Occupied(slots, i)
    ensures SlabOk(c, SetEntry(slots, i, e), free)
  {
    CountUpdate(slots, i, SetEntry(slots, i, e)[i], Filled());
  }

  lemma SlabVacate(c: Config, slots: seq<SlabSlot>, free: seq<nat>, i: nat)
    requires SlabOk(c, slots, free) && Occupied(slots, i)
    ensures SlabOk(c, Vacate(slots, i), free + [i])
  {
    var slots' := Vacate(slots, i);
    CountUpdate(slots, i, slots'[i], Filled());
    forall j: nat | j < |slots'| ensures Count(free + [i], Is(j)) == One(slots'[j].payload.None?) {
      CountAppend(free, i, Is(j));
    }
  }

  /** A free slot exists whenever the operations leave room. */
  lemma SlabHasRoom(c: Config, slots: seq<SlabSlot>, free: seq<nat>)
    requires SlabOk(c, slots, free) && Count(slots, Filled()) < c.capacity
    ensures free != [] && free[|free| - 1] < |slots| && slots[free[|free| - 1]].payload.None?
  {
    CountMember(free, |free| - 1, Is(free[|free| - 1]));
  }

  // ---------------------------------------------------------------- ready order

  lemma ReadyFill(slots: seq<SlabSlot>, ready: seq<nat>, i: nat, e: Entry, position: nat)
    requires ReadyOk(slots, ready) && i < |slots| && !Occupied(slots, i)
    requires e.state.Queued? && position <= |ready|
    ensures ReadyOk(Fill(slots, i, e), ready[..position] + [i] + ready[position..])
  {
    var slots', ready' := Fill(slots, i, e), ready[..position] + [i] + ready[position..];
    CountUpdate(slots, i, slots'[i], Waiting());
    forall j: nat ensures Count(ready', Is(j)) == One(InState(slots', j, Queued)) {
      CountInsert(ready, position, i, Is(j));
      assert j != i ==> InState(slots', j, Queued) == InState(slots, j, Queued);
    }
  }

  /** The head of the ready order is a queued operation. */
  lemma ReadyHead(slots: seq<SlabSlot>, ready: seq<nat>)
    requires ReadyOk(slots, ready) && ready != []
    ensures InState(slots, ready[0], Queued)
  {
    CountMember(ready, 0, Is(ready[0]));
  }

  lemma ReadyPop(slots: seq<SlabSlot>, ready: seq<nat>, e: Entry)
    requires ReadyOk(slots, ready) && ready != [] && Occupied(slots, ready[0])
    requires !e.state.Queued?
    ensures ReadyOk(SetEntry(slots, ready[0], e), ready[1..])
  {
    var i := ready[0];
    var slots' := SetEntry(slots, i, e);
    ReadyHead(slots, ready);
    CountUpdate(slots, i, slots'[i], Waiting());
    forall j: nat ensures Count(ready[1..], Is(j)) == One(InState(slots', j, Queued)) {
      assert j != i ==> InState(slots', j, Queued) == InState(slots, j, Queued);
      assert Count(ready, Is(j)) == One(ready[0] == j) + Count(ready[1..], Is(j));
    }
  }

  lemma ReadyPush(slots: seq<SlabSlot>, ready: seq<nat>, i: nat, e: Entry)
    requires ReadyOk(slots, ready) && Occupied(slots, i) && !InState(slots, i, Queued)
    requires e.state.Queued?
    ensures ReadyOk(SetEntry(slots, i, e), ready + [i])
    ensures |ready| < |slots|
  {
    var slots' := SetEntry(slots, i, e);
    CountUpdate(slots, i, slots'[i], Waiting());
    CountBounds(slots', Waiting());
    forall j: nat ensures Count(ready + [i], Is(j)) == One(InState(slots', j, Queued)) {
      CountAppend(ready, i, Is(j));
      assert j != i ==> InState(slots', j, Queued) == InState(slots, j, Queued);
    }
  }

  lemma ReadyKeep(slots: seq<SlabSlot>, ready: seq<nat>, i: nat, x: SlabSlot)
    requires ReadyOk(slots, ready) && i < |slots|
    requires !InState(slots, i, Queued) && (x.payload.Some? ==> !x.payload.value.state.Queued?)
    ensures ReadyOk(slots[i := x], ready)
  {
    CountUpdate(slots, i, x, Waiting());
    forall j: nat ensures Count(ready, Is(j)) == One(InState(slots[i := x], j, Queued)) {
      assert InState(slots[i := x], j, Queued) == InState(slots, j, Queued);
    }
  }

  // ---------------------------------------------------------------- attempts in flight

  /** A slot that is not active before or after the change. */
  lemma FlightQuiet(slots: seq<SlabSlot>, executing: set<OpToken>, cq: seq<Cqe>, i: nat, x: SlabSlot)
    requires FlightOk(slots, executing, cq) && i < |slots|
    requires !InState(slots, i, Active) && (x.payload.Some? ==> !x.payload.value.state.Active?)
    ensures FlightOk(slots[i := x], executing, cq)
  {
    forall t: OpToken ensures Outstanding(executing, cq, t) == One(ActiveToken(slots[i := x], t)) {
      assert ActiveToken(slots[i := x], t) == ActiveToken(slots, t);
    }
  }

  lemma FlightStart(slots: seq<SlabSlot>, executing: set<OpToken>, cq: seq<Cqe>, i: nat, e: Entry)
    requires FlightOk(slots, executing, cq) && Occupied(slots, i)
    requires !InState(slots, i, Active) && e.state.Active?
    ensures TokenAt(slots, i) !in executing
    ensures FlightOk(SetEntry(slots, i, e), executing + {TokenAt(slots, i)}, cq)
  {
    var slots', executing' := SetEntry(slots, i, e), executing + {TokenAt(slots, i)};
    assert !ActiveToken(slots, TokenAt(slots, i));
    assert Outstanding(executing, cq, TokenAt(slots, i)) == 0;
    forall t: OpToken ensures Outstanding(executing', cq, t) == One(ActiveToken(slots', t)) {
      assert t != TokenAt(slots, i) ==> ActiveToken(slots', t) == ActiveToken(slots, t);
      assert Outstanding(executing, cq, t) == One(ActiveToken(slots, t));
    }
    forall k: nat | k < |cq| && ActiveToken(slots', cq[k].token)
      ensures RawFits(slots'[cq[k].token.slot].payload.value, cq[k].raw)
    {
      if cq[k].token == TokenAt(slots, i) { CountMember(cq, k, Echoes(TokenAt(slots, i))); }
    }
  }

  lemma FlightPost(slots: seq<SlabSlot>, executing: set<OpToken>, cq: seq<Cqe>, t: OpToken, raw: int, at: nat)
    requires FlightOk(slots, executing, cq) && t in executing && at <= |cq|
    requires Contains(slots, t) ==> RawFits(EntryAt(slots, t.slot), raw)
    ensures FlightOk(slots, executing - {t}, cq[..at] + [Cqe(t, raw)] + cq[at..])
  {
    var cq' := cq[..at] + [Cqe(t, raw)] + cq[at..];
    forall u: OpToken ensures Outstanding(executing - {t}, cq', u) == One(ActiveToken(slots, u)) {
      CountInsert(cq, at, Cqe(t, raw), Echoes(u));
      assert Outstanding(executing, cq, u) == One(ActiveToken(slots, u));
    }
    forall k: nat | k < |cq'| && ActiveToken(slots, cq'[k].token)
      ensures RawFits(slots[cq'[k].token.slot].payload.value, cq'[k].raw)
    {
      if k < at { assert cq'[k] == cq[k]; } else if k > at { assert cq'[k] == cq[k - 1]; }
    }
  }

  /** A posted or executing attempt belongs to the live, active operation it echoes. */
  lemma FlightLive(slots: seq<SlabSlot>, executing: set<OpToken>, cq: seq<Cqe>, t: OpToken)
    requires FlightOk(slots, executing, cq)
    requires t in executing || (cq != [] && cq[0].token == t)
    ensures ActiveToken(slots, t) && TokenAt(slots, t.slot) == t
  {
    if cq != [] && cq[0].token == t { CountMember(cq, 0, Echoes(t)); }
    assert Outstanding(executing, cq, t) >= 1;
  }

  lemma FlightReap(slots: seq<SlabSlot>, executing: set<OpToken>, cq: seq<Cqe>, x: SlabSlot)
    requires FlightOk(slots, executing, cq) && cq != []
    requires x.payload.Some? ==> !x.payload.value.state.Active?
    ensures ActiveToken(slots, cq[0].token)
    ensures FlightOk(slots[cq[0].token.slot := x], executing, cq[1..])
  {
    var t := cq[0].token;
    FlightLive(slots, executing, cq, t);
    var slots' := slots[t.slot := x];
    forall u: OpToken ensures Outstanding(executing, cq[1..], u) == One(ActiveToken(slots', u)) {
      assert Outstanding(executing, cq, u) == One(ActiveToken(slots, u));
      assert Count(cq, Echoes(u)) == One(cq[0].token == u) + Count(cq[1..], Echoes(u));
      assert u != t ==> ActiveToken(slots', u) == ActiveToken(slots, u);
    }
    forall k: nat | k < |cq[1..]| && ActiveToken(slots', cq[1..][k].token)
      ensures RawFits(slots'[cq[1..][k].token.slot].payload.value, cq[1..][k].raw)
    {
      assert cq[1..][k] == cq[k + 1];
    }
  }

  lemma FlightPublish(slots: seq<SlabSlot>, executing: set<OpToken>, cq: seq<Cqe>, t: OpToken, x: SlabSlot)
    requires FlightOk(slots, executing, cq) && t in executing
    requires x.payload.Some? ==> !x.payload.value.state.Active?
    ensures ActiveToken(slots, t)
    ensures FlightOk(slots[t.slot := x], executing - {t}, cq)
  {
    FlightLive(slots, executing, cq, t);
    var slots' := slots[t.slot := x];
    forall u: OpToken ensures Outstanding(executing - {t}, cq, u) == One(ActiveToken(slots', u)) {
      assert Outstanding(executing, cq, u) == One(ActiveToken(slots, u));
      assert u != t ==> ActiveToken(slots', u) == ActiveToken(slots, u);
    }
  }

  // ---------------------------------------------------------------- staging slots

  lemma ArenaFill(c: Config, slots: seq<SlabSlot>, arena: seq<bool>, owned: set<nat>, i: nat, e: Entry)
    requires ArenaOk(c, slots, arena, owned) && i < |slots| && !Occupied(slots, i)
    requires e.writeSlot.Some? ==> e.writeSlot.value in owned
    ensures ArenaOk(c, Fill(slots, i, e), arena, if e.writeSlot.Some? then owned - {e.writeSlot.value} else owned)
  {
    forall w: nat | w < |arena| ensures
      Count(Fill(slots, i, e), OnWrite(w)) == Count(slots, OnWrite(w)) + One(e.writeSlot == Some(w))
    {
      CountUpdate(slots, i, Fill(slots, i, e)[i], OnWrite(w));
    }
  }

  /** A staging slot is free exactly when nobody has it. */
  lemma ArenaMove(c: Config, slots: seq<SlabSlot>, arena: seq<bool>, owned: set<nat>, w: nat)
    requires ArenaOk(c, slots, arena, owned)
    ensures w in owned ==> w < |arena| && !arena[w] && ArenaOk(c, slots, arena[w := true], owned - {w})
    ensures w < |arena| && arena[w] ==> w !in owned && ArenaOk(c, slots, arena[w := false], owned + {w})
  {
  }

  lemma ArenaRestate(c: Config, slots: seq<SlabSlot>, arena: seq<bool>, owned: set<nat>, i: nat, e: Entry)
    requires ArenaOk(c, slots, arena, owned) && Occupied(slots, i) && e.writeSlot == EntryAt(slots, i).writeSlot
    ensures ArenaOk(c, SetEntry(slots, i, e), arena, owned)
  {
    forall w: nat | w < |arena| ensures Count(SetEntry(slots, i, e), OnWrite(w)) == Count(slots, OnWrite(w)) {
      CountUpdate(slots, i, SetEntry(slots, i, e)[i], OnWrite(w));
    }
  }

  lemma ArenaVacate(c: Config, slots: seq<SlabSlot>, arena: seq<bool>, owned: set<nat>, i: nat)
    requires ArenaOk(c, slots, arena, owned) && EntriesOk(c, slots) && Occupied(slots, i)
    ensures var e := EntryAt(slots, i);
            && (e.writeSlot.Some? ==> e.writeSlot.value < |arena| && !arena[e.writeSlot.value])
            && ArenaOk(c, Vacate(slots, i),
                       if e.writeSlot.Some? && e.writeSlot.value < |arena| then arena[e.writeSlot.value := true]
                       else arena,
                       owned)
  {
    var e := EntryAt(slots, i);
    assert EntryOk(c, e);
    if e.writeSlot.Some? { CountMember(slots, i, OnWrite(e.writeSlot.value)); }
    forall w: nat | w < |arena| ensures
      Count(Vacate(slots, i), OnWrite(w)) + One(e.writeSlot == Some(w)) == Count(slots, OnWrite(w))
    {
      CountUpdate(slots, i, Vacate(slots, i)[i], OnWrite(w));
    }
  }

  // ---------------------------------------------------------------- token history

  lemma TokensFill(slots: seq<SlabSlot>, h: History, i: nat, e: Entry)
    requires TokensOk(slots, h.issued, h.ended, h.dropped, h.freed) && i < |slots| && !Occupied(slots, i)
    requires !e.state.Terminal?
    ensures var slots' := Fill(slots, i, e);
            && TokenAt(slots', i) !in h.issued
            && TokensOk(slots', h.issued + {TokenAt(slots', i)}, h.ended, h.dropped, h.freed)
  {
    var slots' := Fill(slots, i, e);
    var mine := TokenAt(slots', i);
    var issued' := h.issued + {mine};
    assert IssuedOk(slots', issued');
    assert forall t: OpToken | t != mine ::
        Contains(slots', t) == Contains(slots, t) && Over(slots', t) == Over(slots, t);
    assert FreedOk(slots', issued', h.freed) by { hide Over; }
    assert EndedOk(slots', issued', h.ended, h.dropped) by { hide Contains; }
  }

  lemma SameTokens(slots: seq<SlabSlot>, i: nat, e: Entry, issued: set<OpToken>, freed: multiset<OpToken>)
    requires Occupied(slots, i) && IssuedOk(slots, issued) && FreedOk(slots, issued, freed)
    ensures IssuedOk(SetEntry(slots, i, e), issued) && FreedOk(SetEntry(slots, i, e), issued, freed)
  {
    var slots' := SetEntry(slots, i, e);
    assert forall t: OpToken :: Contains(slots', t) == Contains(slots, t);
  }

  lemma TokensRestate(slots: seq<SlabSlot>, h: History, i: nat, e: Entry)
    requires TokensOk(slots, h.issued, h.ended, h.dropped, h.freed) && Occupied(slots, i)
    requires !EntryAt(slots, i).state.Terminal? && !e.state.Terminal?
    ensures TokensOk(SetEntry(slots, i, e), h.issued, h.ended, h.dropped, h.freed)
  {
    var slots' := SetEntry(slots, i, e);
    SameTokens(slots, i, e, h.issued, h.freed);
    hide IssuedOk, FreedOk;
    assert forall t: OpToken :: Over(slots', t) == Over(slots, t);
  }

  lemma TokensEnd(slots: seq<SlabSlot>, h: History, i: nat, e: Entry)
    requires TokensOk(slots, h.issued, h.ended, h.dropped, h.freed) && Occupied(slots, i)
    requires !EntryAt(slots, i).state.Terminal? && e.state.Terminal?
    ensures TokensOk(SetEntry(slots, i, e), h.issued, h.ended + multiset{TokenAt(slots, i)}, h.dropped, h.freed)
  {
    var slots', mine := SetEntry(slots, i, e), TokenAt(slots, i);
    SameTokens(slots, i, e, h.issued, h.freed);
    assert mine in h.issued;
    hide IssuedOk, FreedOk;
    assert forall t: OpToken | t != mine :: Over(slots', t) == Over(slots, t);
    assert !Over(slots, mine) && Over(slots', mine);
  }

  /** Freeing a slot ends its token, by a result, by giving it up, or because it had ended before. */
  lemma TokensVacate(slots: seq<SlabSlot>, h: History, i: nat, result: bool)
    requires TokensOk(slots, h.issued, h.ended, h.dropped, h.freed) && Occupied(slots, i)
    ensures var mine := multiset{TokenAt(slots, i)};
            var open := !EntryAt(slots, i).state.Terminal?;
            TokensOk(Vacate(slots, i), h.issued,
                     if open && result then h.ended + mine else h.ended,
                     if open && !result then h.dropped + mine else h.dropped,
                     h.freed + mine)
  {
    var slots', mine := Vacate(slots, i), TokenAt(slots, i);
    var open := !EntryAt(slots, i).state.Terminal?;
    assert mine in h.issued && Contains(slots, mine) && !Contains(slots', mine);
    assert forall t: OpToken | t != mine ::
        Contains(slots', t) == Contains(slots, t) && Over(slots', t) == Over(slots, t);
    assert IssuedOk(slots', h.issued);
    assert FreedOk(slots', h.issued, h.freed + multiset{mine}) by { hide Over; }
    assert EndedOk(slots', h.issued, if open && result then h.ended + multiset{mine} else h.ended,
                   if open && !result then h.dropped + multiset{mine} else h.dropped)
    by {
      assert Over(slots', mine) && Over(slots, mine) == !open;
      hide Contains, Over;
    }
  }

  lemma ScatterFill(slots: seq<SlabSlot>, h: History, i: nat, e: Entry)
    requires ScatterOk(slots, h.issued, h.scattered, h.dropped) && IssuedOk(slots, h.issued)
    requires i < |slots| && !Occupied(slots, i)
    ensures var mine := TokenAt(Fill(slots, i, e), i);
            ScatterOk(Fill(slots, i, e), h.issued + {mine},
                      if e.vector then h.scattered + {mine} else h.scattered, h.dropped)
  {
    var slots' := Fill(slots, i, e);
    assert TokenAt(slots', i) !in h.issued;
    assert forall t: OpToken | t != TokenAt(slots', i) :: Contains(slots', t) == Contains(slots, t);
  }

  lemma ScatterRestate(slots: seq<SlabSlot>, h: History, i: nat, e: Entry)
    requires ScatterOk(slots, h.issued, h.scattered, h.dropped) && Occupied(slots, i)
             && e.vector == EntryAt(slots, i).vector
    ensures ScatterOk(SetEntry(slots, i, e), h.issued, h.scattered, h.dropped)
  {
    assert forall t: OpToken :: Contains(SetEntry(slots, i, e), t) == Contains(slots, t);
  }

  lemma ScatterVacate(slots: seq<SlabSlot>, h: History, i: nat)
    requires ScatterOk(slots, h.issued, h.scattered, h.dropped) && Occupied(slots, i)
    ensures ScatterOk(Vacate(slots, i), h.issued, h.scattered, h.dropped)
    ensures EntryAt(slots, i).vector ==>
            ScatterOk(Vacate(slots, i), h.issued, h.scattered, h.dropped + multiset{TokenAt(slots, i)})
  {
    assert Contains(slots, TokenAt(slots, i));
    assert forall t: OpToken | Contains(Vacate(slots, i), t) :: Contains(slots, t);
  }

  lemma TokensIssued(slots: seq<SlabSlot>, h: History)
    requires TokensOk(slots, h.issued, h.ended, h.dropped, h.freed)
    ensures IssuedOk(slots, h.issued)
  {
  }
}
