/** The read probe's pipeline: groups of pages read into a few slots, each group as one request or
    as one per page, completions in any order, slots refilled as their groups are consumed. */
module Probe {
  import opened Types
  import opened Counting

  const GRANULE: nat := 4096
  const PAGES: nat := 65_536
  const POLLS_MAX: nat := 1_000_000
  const GROUP_PAGES: nat := 32
  const GROUP_BYTES: nat := GROUP_PAGES * GRANULE
  const GROUPS: nat := 3 * PAGES / GROUP_PAGES

  // ---------------------------------------------------------------- 32-bit masks

  predicate HasBit(mask: nat, r: nat) {
    if r == 0 then mask % 2 == 1 else HasBit(mask / 2, r - 1)
  }

  /** The mask with bit `r` set. */
  function SetBit(mask: nat, r: nat): (m: nat)
    decreases r
  {
    if r == 0 then mask - mask % 2 + 1 else 2 * SetBit(mask / 2, r - 1) + mask % 2
  }

  function Ones(mask: nat): nat {
    if mask == 0 then 0 else mask % 2 + Ones(mask / 2)
  }

  lemma {:induction false} SetBitSets(mask: nat, r: nat, k: nat)
    ensures HasBit(SetBit(mask, r), k) <==> k == r || HasBit(mask, k)
    decreases r
  {
    if r > 0 && k > 0 { SetBitSets(mask / 2, r - 1, k - 1); }
  }

  lemma {:induction false} SetBitCounts(mask: nat, r: nat)
    requires !HasBit(mask, r)
    ensures Ones(SetBit(mask, r)) == Ones(mask) + 1
    decreases r
  {
    OnesStep(mask / 2, mask % 2);
    if r > 0 {
      SetBitCounts(mask / 2, r - 1);
      OnesStep(SetBit(mask / 2, r - 1), mask % 2);
    } else {
      OnesStep(mask / 2, 1);
    }
    hide Ones;
    assert mask == 2 * (mask / 2) + mask % 2;
  }

  lemma OnesStep(x: nat, b: nat)
    requires b < 2
    ensures Ones(2 * x + b) == Ones(x) + b
  {
    assert (2 * x + b) / 2 == x && (2 * x + b) % 2 == b;
  }

  lemma {:induction false} SomeBit(mask: nat) returns (k: nat)
    requires mask > 0
    ensures HasBit(mask, k)
  {
    if mask % 2 == 1 {
      k := 0;
    } else {
      k := SomeBit(mask / 2);
      k := k + 1;
    }
  }

  /** A mask with all its bits below `n` counts at most `n`, and exactly `n` only with all set. */
  lemma {:induction false} OnesBelow(mask: nat, n: nat)
    requires forall k: nat | HasBit(mask, k) :: k < n
    ensures Ones(mask) <= n
    ensures Ones(mask) == n ==> forall k: nat | k < n :: HasBit(mask, k)
    decreases n
  {
    if mask > 0 {
      var _ := SomeBit(mask);
      forall k: nat | HasBit(mask / 2, k) ensures k < n - 1 { assert HasBit(mask, k + 1); }
      OnesBelow(mask / 2, n - 1);
      if Ones(mask) == n {
        forall k: nat | k < n ensures HasBit(mask, k) { if k > 0 { assert HasBit(mask / 2, k - 1); } }
      }
    }
  }

  // ---------------------------------------------------------------- tokens

  function Token(group: nat, index: nat, request: nat): nat {
    group * WORD + index * 32 + request
  }

  function GroupOf(token: nat): nat { token / WORD }
  function IndexOf(token: nat): nat { token % WORD / 32 }
  function RequestOf(token: nat): nat { token % 32 }

  /** Packing and unpacking a request's user data are inverse, both ways. */
  lemma TokenRoundTrip(token: nat, group: nat, index: nat, request: nat)
    ensures Token(GroupOf(token), IndexOf(token), RequestOf(token)) == token
    ensures index < WORD / 32 && request < 32 ==>
              && GroupOf(Token(group, index, request)) == group
              && IndexOf(Token(group, index, request)) == index
              && RequestOf(Token(group, index, request)) == request
  {
    if index < WORD / 32 && request < 32 {
      assert 0 <= index * 32 + request < WORD;
      assert Token(group, index, request) / WORD == group;
      assert Token(group, index, request) % WORD == index * 32 + request;
    }
  }

  /** One of the first `n` requests of the group in that slot. */
  predicate Pushed(token: nat, group: nat, index: nat, n: nat) {
    GroupOf(token) == group && IndexOf(token) == index && RequestOf(token) < n
  }

  lemma PushedNext(token: nat, group: nat, index: nat, request: nat)
    requires index < WORD / 32 && request < 32
    ensures Pushed(token, group, index, request + 1) <==>
            Pushed(token, group, index, request) || token == Token(group, index, request)
    ensures !Pushed(Token(group, index, request), group, index, request)
  {
    TokenRoundTrip(token, group, index, request);
  }

  // ---------------------------------------------------------------- slots

  datatype SlotState = Free | Reading(group: nat, seen: nat) | Ready(group: nat)

  function Start(s: SlotState, group: nat): (r: SlotState)
    requires s.Free? && group < GROUPS
  {
    Reading(group, 0)
  }

  predicate CanComplete(s: SlotState, group: nat, request: nat, requests: nat) {
    s.Reading? && group == s.group && request < requests && !HasBit(s.seen, request)
  }

  function Complete(s: SlotState, group: nat, request: nat, requests: nat): (r: (SlotState, bool))
    requires CanComplete(s, group, request, requests)
  {
    var seen := SetBit(s.seen, request);
    if Ones(seen) == requests then (Ready(group), true) else (Reading(group, seen), false)
  }

  predicate SlotOk(s: SlotState, requests: nat) {
    && (s.Reading? ==> s.group < GROUPS && Ones(s.seen) < requests)
    && (s.Ready? ==> s.group < GROUPS)
  }

  ghost predicate Within(s: SlotState, requests: nat) {
    s.Reading? ==> forall k: nat | HasBit(s.seen, k) :: k < requests
  }

  ghost predicate SlotsOk(slots: seq<SlotState>, requests: nat) {
    forall i | 0 <= i < |slots| :: SlotOk(slots[i], requests) && Within(slots[i], requests)
  }

  ghost predicate AllSeen(mask: nat, n: nat) {
    forall k: nat | k < n :: HasBit(mask, k)
  }

  /** A completed request stays in range and moves the count by one; a group is ready exactly when
      every one of its requests was seen. */
  lemma CompleteMeaning(s: SlotState, group: nat, request: nat, requests: nat)
    requires SlotOk(s, requests) && Within(s, requests) && CanComplete(s, group, request, requests)
    ensures var (s', finished) := Complete(s, group, request, requests);
            && SlotOk(s', requests) && Within(s', requests) && s'.group == group
            && Ones(SetBit(s.seen, request)) == Ones(s.seen) + 1 <= requests
            && (finished <==> s'.Ready?)
            && (finished <==> AllSeen(SetBit(s.seen, request), requests))
            && (!finished ==> forall k: nat :: HasBit(s'.seen, k) <==> k == request || HasBit(s.seen, k))
  {
    var seen := SetBit(s.seen, request);
    SetBitCounts(s.seen, request);
    forall k: nat ensures HasBit(seen, k) <==> k == request || HasBit(s.seen, k) { SetBitSets(s.seen, request, k); }
    OnesBelow(seen, requests);
    if AllSeen(seen, requests) { AllOnes(seen, requests); }
  }

  lemma {:induction false} AllOnes(mask: nat, n: nat)
    requires AllSeen(mask, n)
    ensures Ones(mask) >= n
    decreases n
  {
    if n > 0 {
      assert HasBit(mask, 0);
      forall k: nat | k < n - 1 ensures HasBit(mask / 2, k) { assert HasBit(mask, k + 1); }
      AllOnes(mask / 2, n - 1);
    }
  }

  // ---------------------------------------------------------------- what is in flight

  function Pending(s: SlotState, requests: nat): nat {
    if s.Reading? && Ones(s.seen) <= requests then requests - Ones(s.seen) else 0
  }

  /** Requests not yet seen, over the slots being read. */
  function Unseen(slots: seq<SlotState>, requests: nat): nat {
    if slots == [] then 0 else Pending(slots[0], requests) + Unseen(slots[1..], requests)
  }

  lemma {:induction false} UnseenUpdate(slots: seq<SlotState>, i: nat, x: SlotState, requests: nat)
    requires i < |slots|
    ensures Unseen(slots[i := x], requests) + Pending(slots[i], requests)
            == Unseen(slots, requests) + Pending(x, requests)
  {
    if i == 0 {
      assert slots[i := x][1..] == slots[1..];
    } else {
      assert slots[i := x][1..] == slots[1..][i - 1 := x];
      UnseenUpdate(slots[1..], i - 1, x, requests);
    }
  }

  /** Nothing is outstanding exactly when no slot is being read; and each slot adds at most one
      group's requests. */
  lemma {:induction false} UnseenBounds(slots: seq<SlotState>, requests: nat)
    requires SlotsOk(slots, requests)
    ensures Count(slots, IsReading()) <= Unseen(slots, requests) <= Count(slots, IsReading()) * requests
  {
    if slots != [] {
      UnseenBounds(slots[1..], requests);
      var rest := Count(slots[1..], IsReading());
      assert (rest + 1) * requests == rest * requests + requests;
    }
  }

  function IsReading(): SlotState -> bool { (s: SlotState) => s.Reading? }
  function Busy(): SlotState -> bool { (s: SlotState) => !s.Free? }
  function ReadingGroup(g: nat): SlotState -> bool { (s: SlotState) => s.Reading? && s.group == g }
  function HoldsGroup(g: nat): SlotState -> bool { (s: SlotState) => !s.Free? && s.group == g }

  /** The token is one a slot still waits for. */
  predicate Awaited(slots: seq<SlotState>, requests: nat, token: nat) {
    IndexOf(token) < |slots| && CanComplete(slots[IndexOf(token)], GroupOf(token), RequestOf(token), requests)
  }

  /** The ring owes a completion for exactly the awaited tokens. */
  ghost predicate FlightOk(slots: seq<SlotState>, requests: nat, flight: set<nat>) {
    forall t: nat :: t in flight <==> Awaited(slots, requests, t)
  }

  lemma FlightComplete(slots: seq<SlotState>, requests: nat, flight: set<nat>, token: nat)
    requires SlotsOk(slots, requests) && FlightOk(slots, requests, flight) && token in flight
    ensures IndexOf(token) < |slots|
    ensures CanComplete(slots[IndexOf(token)], GroupOf(token), RequestOf(token), requests)
    ensures var i := IndexOf(token);
            FlightOk(slots[i := Complete(slots[i], GroupOf(token), RequestOf(token), requests).0],
                     requests, flight - {token})
  {
    var i := IndexOf(token);
    assert Awaited(slots, requests, token);
    CompleteMeaning(slots[i], GroupOf(token), RequestOf(token), requests);
    var slots' := slots[i := Complete(slots[i], GroupOf(token), RequestOf(token), requests).0];
    forall t: nat ensures t in flight - {token} <==> Awaited(slots', requests, t) {
      TokenRoundTrip(t, 0, 0, 0);
      TokenRoundTrip(token, 0, 0, 0);
      assert t in flight <==> Awaited(slots, requests, t);
      if IndexOf(t) == i { SetBitSets(slots[i].seen, RequestOf(token), RequestOf(t)); }
    }
  }

  lemma FlightStart(slots: seq<SlotState>, requests: nat, flight: set<nat>, flight': set<nat>, index: nat, group: nat)
    requires FlightOk(slots, requests, flight) && index < |slots| && slots[index].Free?
    requires forall t: nat ::
             t in flight' <==> t in flight || Pushed(t, group, index, requests)
    ensures FlightOk(slots[index := Reading(group, 0)], requests, flight')
  {
    var slots' := slots[index := Reading(group, 0)];
    forall t: nat ensures t in flight' <==> Awaited(slots', requests, t) {
      assert t in flight <==> Awaited(slots, requests, t);
      NoBits(RequestOf(t));
    }
  }

  /** A free slot waits for nothing. */
  lemma NotAwaited(slots: seq<SlotState>, requests: nat, group: nat, index: nat, request: nat)
    requires index < |slots| && slots[index].Free? && index < WORD / 32 && request < 32
    ensures !Awaited(slots, requests, Token(group, index, request))
  {
    TokenRoundTrip(0, group, index, request);
  }

  lemma {:induction false} NoBits(r: nat)
    ensures !HasBit(0, r)
  {
    if r > 0 { NoBits(r - 1); }
  }

  // ---------------------------------------------------------------- history of a run

  /** Groups staged, in order, and the groups whose reads completed and whose pages were consumed. */
  datatype History = History(staged: nat, completed: multiset<nat>, consumed: multiset<nat>)

  ghost predicate HistoryOk(slots: seq<SlotState>, h: History, clean: bool, groupsConsumed: nat) {
    && h.staged <= GROUPS
    && (forall g: nat :: h.completed[g] + Count(slots, ReadingGroup(g)) == One(g < h.staged))
    && (clean ==> forall g: nat :: h.consumed[g] + Count(slots, HoldsGroup(g)) == One(g < h.staged))
    && (clean ==> groupsConsumed + Count(slots, Busy()) == h.staged)
  }

  lemma HistoryStart(slots: seq<SlotState>, h: History, clean: bool, groupsConsumed: nat, i: nat)
    requires HistoryOk(slots, h, clean, groupsConsumed) && i < |slots| && slots[i].Free? && h.staged < GROUPS
    ensures HistoryOk(slots[i := Reading(h.staged, 0)], h.(staged := h.staged + 1), clean, groupsConsumed)
  {
    var x := Reading(h.staged, 0);
    CountUpdate(slots, i, x, Busy());
    forall g: nat ensures
      && Count(slots[i := x], ReadingGroup(g)) == Count(slots, ReadingGroup(g)) + One(g == h.staged)
      && Count(slots[i := x], HoldsGroup(g)) == Count(slots, HoldsGroup(g)) + One(g == h.staged)
    {
      CountUpdate(slots, i, x, ReadingGroup(g));
      CountUpdate(slots, i, x, HoldsGroup(g));
    }
  }

  lemma HistorySeen(slots: seq<SlotState>, h: History, clean: bool, groupsConsumed: nat, i: nat, x: SlotState)
    requires HistoryOk(slots, h, clean, groupsConsumed) && i < |slots| && slots[i].Reading?
    requires !x.Free? && x.group == slots[i].group
    ensures var h' := if x.Ready? then h.(completed := h.completed + multiset{x.group}) else h;
            HistoryOk(slots[i := x], h', clean, groupsConsumed) && HistoryOk(slots[i := x], h', false, groupsConsumed)
  {
    CountUpdate(slots, i, x, Busy());
    forall g: nat ensures
      && Count(slots[i := x], ReadingGroup(g)) == Count(slots, ReadingGroup(g)) - One(x.Ready? && g == x.group)
      && Count(slots[i := x], HoldsGroup(g)) == Count(slots, HoldsGroup(g))
    {
      CountUpdate(slots, i, x, ReadingGroup(g));
      CountUpdate(slots, i, x, HoldsGroup(g));
    }
  }

  lemma HistoryRelease(slots: seq<SlotState>, h: History, clean: bool, groupsConsumed: nat, i: nat)
    requires HistoryOk(slots, h, clean, groupsConsumed) && i < |slots| && slots[i].Ready?
    ensures HistoryOk(slots[i := Free], if clean then h.(consumed := h.consumed + multiset{slots[i].group}) else h,
                      clean, if clean then groupsConsumed + 1 else groupsConsumed)
  {
    CountUpdate(slots, i, Free, Busy());
    forall g: nat ensures
      && Count(slots[i := Free], ReadingGroup(g)) == Count(slots, ReadingGroup(g))
      && Count(slots[i := Free], HoldsGroup(g)) == Count(slots, HoldsGroup(g)) - One(g == slots[i].group)
    {
      CountUpdate(slots, i, Free, ReadingGroup(g));
      CountUpdate(slots, i, Free, HoldsGroup(g));
    }
  }

  // ---------------------------------------------------------------- the probe

  datatype Cqe = Cqe(token: nat, result: int)

  /** One poll hands out completions of submitted requests, each at most once. */
  predicate Handed(cqes: seq<Cqe>, owed: set<nat>) {
    && (forall k | 0 <= k < |cqes| :: cqes[k].token in owed)
    && (forall j, k | 0 <= j < k < |cqes| :: cqes[j].token != cqes[k].token)
  }

  /** A completion's share of its group arrived whole. */
  predicate Good(requests: nat, cqe: Cqe) { requests * cqe.result == GROUP_BYTES }

  /** What is remembered of the completions taken: nothing while all were good, else the last bad one,
      by its errno, or as an I/O error if it moved the wrong number of bytes. */
  function Remembered(requests: nat, taken: seq<Cqe>): Option<int> {
    if taken == [] then None
    else
      var last := taken[|taken| - 1];
      if Good(requests, last) then Remembered(requests, taken[..|taken| - 1])
      else Some(if last.result < 0 then -last.result else EIO)
  }

  /** The completion at `k` is the last bad one, and `code` names it. */
  ghost predicate LastBad(requests: nat, taken: seq<Cqe>, k: nat, code: int)
    requires k < |taken|
  {
    && !Good(requests, taken[k]) && (forall j | k < j < |taken| :: Good(requests, taken[j]))
    && code == if taken[k].result < 0 then -taken[k].result else EIO
  }

  /** It is a failure exactly if one of them was bad, and then it is the last such one. */
  lemma {:induction false} RememberedMeaning(requests: nat, taken: seq<Cqe>)
    ensures var r := Remembered(requests, taken);
            && (r.None? <==> forall k | 0 <= k < |taken| :: Good(requests, taken[k]))
            && (r.Some? ==> exists k | 0 <= k < |taken| :: LastBad(requests, taken, k, r.value))
  {
    if taken != [] {
      var last, front, r := taken[|taken| - 1], taken[..|taken| - 1], Remembered(requests, taken);
      assert forall k | 0 <= k < |front| :: taken[k] == front[k];
      if Good(requests, last) {
        RememberedMeaning(requests, front);
        if r.Some? {
          var k :| 0 <= k < |front| && LastBad(requests, front, k, r.value);
          assert LastBad(requests, taken, k, r.value);
        }
      } else {
        assert LastBad(requests, taken, |taken| - 1, r.value);
      }
    }
  }

  lemma RememberedSnoc(requests: nat, taken: seq<Cqe>, cqe: Cqe)
    ensures Remembered(requests, taken + [cqe])
            == if Good(requests, cqe) then Remembered(requests, taken)
               else Some(if cqe.result < 0 then -cqe.result else EIO)
  {
    assert (taken + [cqe])[..|taken|] == taken;
  }

  lemma ExpectedIsGood(requests: nat, cqe: Cqe)
    requires requests == 1 || requests == GROUP_PAGES
    ensures cqe.result == Expected(requests) <==> Good(requests, cqe)
  {
  }

  /** The bytes one full read returns. */
  function Expected(requests: nat): nat
    requires requests > 0
  {
    GROUP_BYTES / requests
  }

  datatype Reply = Accepted | Interrupted | Refused

  datatype Result = Done | Failed(code: int) | IoError | TimedOut

  lemma SubsetSize(a: set<nat>, b: set<nat>)
    requires a <= b
    ensures |a| <= |b|
  {
    if a != {} {
      var x :| x in a;
      SubsetSize(a - {x}, b - {x});
    }
  }

  /** While a slot is free, less than all slots' requests are outstanding. */
  lemma RoomToStage(slots: seq<SlotState>, requests: nat, index: nat)
    requires SlotsOk(slots, requests) && index < |slots| && slots[index].Free? && requests <= GROUP_PAGES
    ensures Unseen(slots, requests) + requests <= |slots| * GROUP_PAGES
  {
    UnseenBounds(slots, requests);
    CountUpdate(slots, index, Reading(0, 0), IsReading());
    CountBounds(slots[index := Reading(0, 0)], IsReading());
    hide Count, Unseen, SlotsOk;
    MulGrows(Count(slots, IsReading()), requests, GROUP_PAGES);
  }

  lemma MulGrows(n: nat, a: nat, b: nat)
    requires a <= b
    ensures n * a <= n * b
  {
  }

  lemma StageKeeps(slots: seq<SlotState>, requests: nat, index: nat, group: nat)
    requires SlotsOk(slots, requests) && index < |slots| && slots[index].Free? && group < GROUPS && requests > 0
    ensures var slots' := slots[index := Reading(group, 0)];
            && SlotsOk(slots', requests) && Unseen(slots', requests) == Unseen(slots, requests) + requests
            && Count(slots', IsReading()) == Count(slots, IsReading()) + 1
  {
    forall k: nat ensures !HasBit(0, k) { NoBits(k); }
    UnseenUpdate(slots, index, Reading(group, 0), requests);
    CountUpdate(slots, index, Reading(group, 0), IsReading());
  }

  lemma CompleteKeeps(slots: seq<SlotState>, requests: nat, index: nat, group: nat, request: nat)
    requires SlotsOk(slots, requests) && index < |slots| && CanComplete(slots[index], group, request, requests)
    ensures var (state, finished) := Complete(slots[index], group, request, requests);
            && SlotsOk(slots[index := state], requests) && !state.Free? && state.group == group
               && (finished <==> state.Ready?)
            && Unseen(slots[index := state], requests) + 1 == Unseen(slots, requests)
            && Count(slots[index := state], IsReading()) == Count(slots, IsReading()) - One(finished)
            && Count(slots, IsReading()) > 0
  {
    CompleteMeaning(slots[index], group, request, requests);
    var state := Complete(slots[index], group, request, requests).0;
    UnseenUpdate(slots, index, state, requests);
    CountUpdate(slots, index, state, IsReading());
    CountMember(slots, index, IsReading());
  }

  /** The books: everything the probe counts, against its slots and the requests in flight. */
  datatype Books = Books(
    outstanding: nat,
    groupsPending: nat,
    completed: nat,
    groupsConsumed: nat,
    clean: bool,
    hist: History)

  ghost predicate Balanced(slots: seq<SlotState>, requests: nat, flight: set<nat>, b: Books) {
    && SlotsOk(slots, requests) && FlightOk(slots, requests, flight)
    && |flight| == b.outstanding == Unseen(slots, requests)
    && b.groupsPending == Count(slots, IsReading())
    && HistoryOk(slots, b.hist, b.clean, b.groupsConsumed)
    && b.outstanding + b.completed == b.hist.staged * requests
  }

  lemma BalancedStart(slots: seq<SlotState>, requests: nat)
    requires forall i | 0 <= i < |slots| :: slots[i].Free?
    ensures Balanced(slots, requests, {}, Books(0, 0, 0, 0, true, History(0, multiset{}, multiset{})))
  {
    CountNone(slots, IsReading());
    CountNone(slots, Busy());
    UnseenBounds(slots, requests);
    forall g: nat ensures Count(slots, ReadingGroup(g)) == Count(slots, HoldsGroup(g)) == 0 {
      CountNone(slots, ReadingGroup(g));
      CountNone(slots, HoldsGroup(g));
    }
  }

  /** Staging the next group into a free slot. */
  lemma BalancedStage(slots: seq<SlotState>, requests: nat, flight: set<nat>, flight': set<nat>, b: Books, index: nat)
    requires Balanced(slots, requests, flight, b) && index < |slots| && slots[index].Free? && b.hist.staged < GROUPS
             && requests > 0
    requires |flight'| == |flight| + requests
    requires forall t: nat ::
             t in flight' <==>
                 t in flight || Pushed(t, b.hist.staged, index, requests)
    ensures Balanced(slots[index := Reading(b.hist.staged, 0)], requests, flight',
                     b.(outstanding := b.outstanding + requests, groupsPending := b.groupsPending + 1,
                        hist := b.hist.(staged := b.hist.staged + 1)))
  {
    hide SlotsOk, FlightOk, HistoryOk, Unseen, Count;
    StageKeeps(slots, requests, index, b.hist.staged);
    HistoryStart(slots, b.hist, b.clean, b.groupsConsumed, index);
    FlightStart(slots, requests, flight, flight', index, b.hist.staged);
    assert (b.hist.staged + 1) * requests == b.hist.staged * requests + requests;
  }

  /** Any completion in flight, in any order, finds its slot reading its group with that request
      unseen, and taking it balances again. */
  lemma BalancedComplete(slots: seq<SlotState>, requests: nat, flight: set<nat>, b: Books, token: nat, clean: bool)
    requires Balanced(slots, requests, flight, b) && token in flight && (clean ==> b.clean)
    ensures IndexOf(token) < |slots|
    ensures CanComplete(slots[IndexOf(token)], GroupOf(token), RequestOf(token), requests)
    ensures var (state, finished) := Complete(slots[IndexOf(token)], GroupOf(token), RequestOf(token), requests);
            && slots[IndexOf(token)].Reading? && !state.Free? && (finished <==> state.Ready?) && b.outstanding > 0
               && b.groupsPending > 0
            && Balanced(slots[IndexOf(token) := state], requests, flight - {token},
                        b.(outstanding := b.outstanding - 1, completed := b.completed + 1, clean := clean,
                           groupsPending := b.groupsPending - One(finished),
                           hist :=
                             if finished then b.hist.(completed := b.hist.completed + multiset{GroupOf(token)})
                             else b.hist))
  {
    FlightComplete(slots, requests, flight, token);
    hide SlotsOk, FlightOk, HistoryOk, Unseen, Count, CanComplete, GroupOf, IndexOf, RequestOf;
    CompleteKeeps(slots, requests, IndexOf(token), GroupOf(token), RequestOf(token));
    var state := Complete(slots[IndexOf(token)], GroupOf(token), RequestOf(token), requests).0;
    HistorySeen(slots, b.hist, b.clean, b.groupsConsumed, IndexOf(token), state);
  }

  /** Releasing a ready slot, its pages consumed unless a read has failed. */
  lemma BalancedRelease(slots: seq<SlotState>, requests: nat, flight: set<nat>, b: Books, i: nat)
    requires Balanced(slots, requests, flight, b) && i < |slots| && slots[i].Ready?
    ensures Balanced(slots[i := Free], requests, flight,
                     if b.clean then b.(groupsConsumed := b.groupsConsumed + 1,
                                        hist := b.hist.(consumed := b.hist.consumed + multiset{slots[i].group}))
                     else b)
  {
    hide Unseen, Count, HistoryOk;
    UnseenUpdate(slots, i, Free, requests);
    CountUpdate(slots, i, Free, IsReading());
    HistoryRelease(slots, b.hist, b.clean, b.groupsConsumed, i);
  }

  class ReadProbe {
    const depth: nat
    const requests: nat
    const slots: array<SlotState>
    var outstanding: nat
    var groupsPending: nat
    var failure: Option<int>
    var completed: nat
    var groupsCompleted: nat
    var groupsConsumed: nat
    var refillsWhilePending: nat
    // The ring: requests pushed, and requests submitted whose completion was not taken yet.
    var submission: set<nat>
    var kernel: set<nat>
    ghost var hist: History
    ghost var taken: seq<Cqe>

    ghost function Ledger(): Books
      reads this
    {
      Books(outstanding, groupsPending, completed, groupsConsumed, failure.None?, hist)
    }

    ghost predicate Valid()
      reads this, slots
    {
      && slots.Length == depth && depth in {1, 2, 4, 8, 16} && (requests == 1 || requests == GROUP_PAGES)
      && submission !! kernel && Balanced(slots[..], requests, submission + kernel, Ledger())
      && |taken| == completed && |hist.completed| == groupsCompleted && failure == Remembered(requests, taken)
    }

    ghost predicate Fresh()
      reads this, slots
    {
      Ledger() == Books(0, 0, 0, 0, true, History(0, multiset{}, multiset{})) && forall i | 0 <= i < slots.Length ::
          slots[i].Free?
    }

    /** No slot waits to be consumed, and while the reads are good none is idle before the end. */
    ghost predicate Primed(next: nat)
      reads this, slots
    {
      && next == hist.staged
      && (forall i | 0 <= i < slots.Length :: !slots[i].Ready?)
      && (failure.None? ==> next == GROUPS || forall i | 0 <= i < slots.Length :: slots[i].Reading?)
    }

    constructor (depth: nat, requests: nat)
      requires depth in {1, 2, 4, 8, 16} && (requests == 1 || requests == GROUP_PAGES)
      ensures Valid() && Fresh() && this.depth == depth && this.requests == requests
    {
      this.depth, this.requests := depth, requests;
      slots := new SlotState[depth](_ => Free);
      outstanding, groupsPending, failure := 0, 0, None;
      completed, groupsCompleted, groupsConsumed, refillsWhilePending := 0, 0, 0, 0;
      submission, kernel := {}, {};
      hist, taken := History(0, multiset{}, multiset{}), [];
      new;
      BalancedStart(slots[..], requests);
      assert submission + kernel == {};
    }

    /** Pushes one request for each part of the group. The submission queue, twice the size of all
        slots together, always has room. */
    method Stage(group: nat, index: nat)
      requires Valid() && index < slots.Length && slots[index].Free? && group == hist.staged < GROUPS
      modifies this, slots
      ensures Valid() && slots[..] == old(slots[..])[index := Reading(group, 0)]
      ensures Ledger() == old(Ledger()).(outstanding := old(outstanding) + requests,
                                         groupsPending := old(groupsPending) + 1,
                                         hist := old(hist).(staged := group + 1))
      ensures failure == old(failure) && taken == old(taken)
    {
      hide Balanced, FlightOk, Remembered;
      ghost var before, flight, books := slots[..], submission + kernel, Ledger();
      StageFacts(before, requests, flight, books, index, submission);
      assert 2 * depth * GROUP_PAGES - |submission| >= requests;
      slots[index] := Start(slots[index], group);
      outstanding := outstanding + requests;
      groupsPending := groupsPending + 1;
      Push(group, index, before);
      hist := hist.(staged := group + 1);
      BalancedStage(before, requests, flight, submission + kernel, books, index);
    }

    method Push(group: nat, index: nat, ghost before: seq<SlotState>)
      requires requests <= 32 && index < 16 && index < |before| && before[index].Free?
      requires submission !! kernel && FlightOk(before, requests, submission + kernel)
      modifies this`submission
      ensures submission !! kernel && |submission + kernel| == |old(submission) + kernel| + requests
      ensures forall t: nat :: t in submission + kernel <==>
                t in old(submission) + kernel || Pushed(t, group, index, requests)
    {
      assert forall t: nat :: !Pushed(t, group, index, 0);
      hide Token, Pushed, Awaited;
      ghost var flight := submission + kernel;
      for request := 0 to requests
        invariant submission !! kernel && |submission + kernel| == |flight| + request
        invariant forall t: nat :: t in submission + kernel <==>
                    t in flight || Pushed(t, group, index, request)
      {
        var token := Token(group, index, request);
        NotAwaited(before, requests, group, index, request);
        PushedNext(token, group, index, request);
        ghost var pushed := submission + kernel;
        submission := submission + {token};
        assert submission + kernel == pushed + {token};
        forall t: nat ensures Pushed(t, group, index, request + 1) <==> Pushed(t, group, index, request) || t == token {
          PushedNext(t, group, index, request);
        }
      }
    }

    /** Takes one completion. A group's share that did not arrive whole is a failure from then on, known
        by its errno, or as an I/O error. */
    method CompleteOne(cqe: Cqe)
      requires Valid() && cqe.token in kernel
      modifies this, slots
      ensures Valid() && kernel == old(kernel) - {cqe.token} && submission == old(submission)
      ensures completed == old(completed) + 1 && outstanding == old(outstanding) - 1
      ensures hist.staged == old(hist).staged
      ensures taken == old(taken) + [cqe]
      ensures failure.None? <==> old(failure).None? && requests * cqe.result == GROUP_BYTES
      ensures failure == if requests * cqe.result == GROUP_BYTES then old(failure)
                         else if cqe.result < 0 then Some(-cqe.result) else Some(EIO)
      ensures NoNewReady(old(slots[..]), slots[..], groupsCompleted - old(groupsCompleted))
    {
      hide Balanced, Complete, GroupOf, IndexOf, RequestOf, CanComplete, Expected, Remembered;
      ExpectedIsGood(requests, cqe);
      RememberedSnoc(requests, taken, cqe);
      ghost var before, flight, books := slots[..], submission + kernel, Ledger();
      var group, index, request := GroupOf(cqe.token), IndexOf(cqe.token), RequestOf(cqe.token);
      BalancedComplete(before, requests, flight, books, cqe.token, failure.None? && cqe.result == Expected(requests));
      var (state, finished) := Complete(slots[index], group, request, requests);
      slots[index] := state;
      if finished {
        groupsPending := groupsPending - 1;
        groupsCompleted := groupsCompleted + 1;
        hist := hist.(completed := hist.completed + multiset{group});
      }
      assert outstanding > 0;
      outstanding := outstanding - 1;
      kernel := kernel - {cqe.token};
      assert submission + kernel == flight - {cqe.token};
      completed, taken := completed + 1, taken + [cqe];
      if cqe.result != Expected(requests) {
        failure := Some(if cqe.result < 0 then -cqe.result else EIO);
      }
    }

    /** Submits what was pushed and takes the completions that have arrived. */
    method Poll() returns (ok: bool)
      requires Valid()
      modifies this, slots
      ensures Valid() && hist.staged == old(hist).staged && completed >= old(completed)
      ensures old(failure).Some? ==> failure.Some?
      ensures |old(taken)| <= |taken| && taken[..|old(taken)|] == old(taken)
      ensures NoNewReady(old(slots[..]), slots[..], groupsCompleted - old(groupsCompleted))
    {
      hide Balanced, Expected, Remembered;
      var reply: Reply := *;
      if reply.Interrupted? { return true; }
      if reply.Refused? { return false; }
      var accepted: set<nat> :| accepted <= submission;
      assert (submission - accepted) + (kernel + accepted) == submission + kernel;
      submission, kernel := submission - accepted, kernel + accepted;
      PendingFits(slots[..], requests, submission + kernel, Ledger());
      assert groupsPending < 17;
      var owed := kernel;
      assert Handed([], owed);
      var cqes: seq<Cqe> :| Handed(cqes, owed);
      assert Handed(cqes, owed);
      for k := 0 to |cqes|
        invariant Valid() && hist.staged == old(hist).staged && completed >= old(completed)
        invariant old(failure).Some? ==> failure.Some?
        invariant taken == old(taken) + cqes[..k]
        invariant NoNewReady(old(slots[..]), slots[..], groupsCompleted - old(groupsCompleted))
        invariant forall j | k <= j < |cqes| :: cqes[j].token in kernel
      {
        CompleteOne(cqes[k]);
      }
      ok := true;
    }

    /** Consumes the ready slot and stages the next group into a free one, unless a read failed. */
    method RefillSlot(index: nat, next: nat, pending: nat) returns (next': nat)
      requires Valid() && index < slots.Length && next == hist.staged && (pending > 0 ==> next >= depth)
      modifies this, slots
      ensures Valid() && next <= next' == hist.staged && failure == old(failure) && taken == old(taken)
      ensures slots[..] == old(slots[..])[index := slots[index]] && !slots[index].Ready?
      ensures old(slots[index]).Reading? ==> slots[index].Reading?
      ensures failure.None? ==> next' == GROUPS || slots[index].Reading?
    {
      hide Balanced, Remembered;
      StagedFits(slots[..], requests, submission + kernel, Ledger());
      next' := next;
      if slots[index].Ready? {
        BalancedRelease(slots[..], requests, submission + kernel, Ledger(), index);
        if failure.None? {
          hist := hist.(consumed := hist.consumed + multiset{slots[index].group});
          groupsConsumed := groupsConsumed + 1;
        }
        slots[index] := Free;
      }
      if !slots[index].Free? || failure.Some? || next == GROUPS { return; }
      assert next < GROUPS;
      if pending > 0 {
        assert next >= depth;
        refillsWhilePending := refillsWhilePending + 1;
      }
      Stage(next, index);
      next' := next + 1;
    }

    method Refill(next: nat) returns (next': nat)
      requires Valid() && next == hist.staged && (groupsPending > 0 ==> next >= depth)
      modifies this, slots
      ensures Valid() && Primed(next') && next <= next' && failure == old(failure) && taken == old(taken)
    {
      hide Balanced, Remembered;
      var pending := groupsPending;
      next' := next;
      for index := 0 to slots.Length
        invariant Valid() && next <= next' == hist.staged && failure == old(failure) && taken == old(taken)
        invariant forall j | 0 <= j < index :: !slots[j].Ready?
        invariant failure.None? ==> next' == GROUPS || forall j | 0 <= j < index :: slots[j].Reading?
      {
        StagedFits(slots[..], requests, submission + kernel, Ledger());
        next' := RefillSlot(index, next', pending);
        StagedFits(slots[..], requests, submission + kernel, Ledger());
      }
    }

    /** Runs the whole pipeline. On success every group was staged, completed and consumed exactly
        once and every completion was good; a failed run is told the last one that was not; either way
        nothing is left in the ring, so the probe can be dropped; and the poll budget is only ever used
        up by a stall. */
    method Run() returns (r: Result, stalled: nat)
      requires Valid() && Fresh()
      modifies this, slots
      ensures Valid()
      ensures r.Done? ==>
                && failure.None? && hist.staged == GROUPS == groupsConsumed
                && forall g: nat :: hist.completed[g] == hist.consumed[g] == One(g < GROUPS)
      ensures r.Done? || r.Failed? ==> outstanding == groupsPending == 0 && submission == kernel == {}
      ensures r.Done? ==> |taken| == GROUPS * requests && forall k | 0 <= k < |taken| :: Good(requests, taken[k])
      ensures r.Failed? ==> exists k | 0 <= k < |taken| :: LastBad(requests, taken, k, r.code)
      ensures r.TimedOut? ==> stalled == POLLS_MAX
    {
      hide Balanced, HistoryOk, Remembered, Good;
      stalled := 0;
      var next := Refill(0);
      PrimedRuns(slots[..], requests, submission + kernel, Ledger());
      var limit := GROUPS * requests * POLLS_MAX;
      var polls := 0;
      while polls < limit
        invariant Valid() && Primed(next) && outstanding > 0 && depth <= next
        invariant stalled < POLLS_MAX && polls <= completed * POLLS_MAX + stalled
        decreases limit - polls
      {
        polls := polls + 1;
        var before, groups := completed, groupsCompleted;
        var ok := Poll();
        if !ok { return IoError, stalled; }
        if before == completed {
          stalled := stalled + 1;
          if stalled == POLLS_MAX { return TimedOut, stalled; }
        } else {
          stalled := 0;
        }
        if groups != groupsCompleted { next := Refill(next); }
        if outstanding == 0 {
          DrainedProbe(slots[..], requests, submission + kernel, Ledger());
          assert groupsPending == 0;
          assert submission == {} && kernel == {};
          RememberedMeaning(requests, taken);
          if failure.Some? { return Failed(failure.value), stalled; }
          assert next == GROUPS;
          assert groupsConsumed == GROUPS;
          return Done, stalled;
        }
      }
      OnlyStallsTimeOut(slots[..], requests, submission + kernel, Ledger(), polls, stalled);
      assert false;
    }
  }

  lemma PendingFits(slots: seq<SlotState>, requests: nat, flight: set<nat>, b: Books)
    requires Balanced(slots, requests, flight, b)
    ensures b.groupsPending <= |slots|
  {
    CountBounds(slots, IsReading());
  }

  lemma StagedFits(slots: seq<SlotState>, requests: nat, flight: set<nat>, b: Books)
    requires Balanced(slots, requests, flight, b)
    ensures b.hist.staged <= GROUPS
  {
  }

  /** Right after the first refill every slot reads, so something is outstanding. */
  lemma PrimedRuns(slots: seq<SlotState>, requests: nat, flight: set<nat>, b: Books)
    requires Balanced(slots, requests, flight, b) && b.clean && b.completed == 0 && 0 < |slots| <= 16 && requests > 0
    requires b.hist.staged == GROUPS || forall i | 0 <= i < |slots| :: slots[i].Reading?
    ensures b.outstanding > 0 && |slots| <= b.hist.staged
  {
    if b.hist.staged != GROUPS { CountAll(slots, Busy()); }
    MulGrows(requests, 1, b.hist.staged);
  }

  /** With nothing outstanding and no slot left to consume, the run is complete. */
  lemma DrainedProbe(slots: seq<SlotState>, requests: nat, flight: set<nat>, b: Books)
    requires Balanced(slots, requests, flight, b) && b.outstanding == 0 && |slots| > 0
    requires forall i | 0 <= i < |slots| :: !slots[i].Ready?
    requires b.clean ==> b.hist.staged == GROUPS || forall i | 0 <= i < |slots| :: slots[i].Reading?
    ensures b.groupsPending == 0 && flight == {}
    ensures b.clean ==> b.hist.staged == GROUPS == b.groupsConsumed && b.completed == GROUPS * requests
    ensures b.clean ==> forall g: nat :: b.hist.completed[g] == b.hist.consumed[g] == One(g < GROUPS)
  {
    UnseenBounds(slots, requests);
    forall i | 0 <= i < |slots| ensures slots[i].Free? {
      if slots[i].Reading? { CountMember(slots, i, IsReading()); }
    }
    CountNone(slots, Busy());
    forall g: nat ensures Count(slots, ReadingGroup(g)) == Count(slots, HoldsGroup(g)) == 0 {
      CountNone(slots, ReadingGroup(g));
      CountNone(slots, HoldsGroup(g));
    }
  }

  /** Each completion buys `POLLS_MAX` more polls, and while requests are outstanding not all
      completions are in: the poll budget outlasts every run that does not stall. */
  lemma OnlyStallsTimeOut(slots: seq<SlotState>, requests: nat, flight: set<nat>, b: Books, polls: nat, stalled: nat)
    requires Balanced(slots, requests, flight, b) && b.outstanding > 0 && requests > 0
    requires stalled < POLLS_MAX && polls <= b.completed * POLLS_MAX + stalled
    ensures polls < GROUPS * requests * POLLS_MAX
  {
    MulGrows(requests, b.hist.staged, GROUPS);
    assert b.completed + 1 <= GROUPS * requests;
  }

  /** Completions leave free slots free, and make a slot ready only if `finished` says so. */
  ghost predicate NoNewReady(before: seq<SlotState>, after: seq<SlotState>, finished: int) {
    && |after| == |before| && finished >= 0
    && (forall i | 0 <= i < |after| :: after[i].Free? == before[i].Free?)
    && (finished == 0 ==> forall i | 0 <= i < |after| && after[i].Ready? :: before[i].Ready?)
  }

  lemma StageFacts(slots: seq<SlotState>, requests: nat, flight: set<nat>, b: Books, index: nat, submission: set<nat>)
    requires Balanced(slots, requests, flight, b) && index < |slots| && slots[index].Free? && requests <= GROUP_PAGES
    requires submission <= flight
    ensures FlightOk(slots, requests, flight) && |submission| + requests <= |slots| * GROUP_PAGES
  {
    RoomToStage(slots, requests, index);
    SubsetSize(submission, flight);
  }
}
