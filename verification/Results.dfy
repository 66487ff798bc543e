/** What callers are told: every completion belongs to an admitted request and answers it truly, and
    no byte of a request is reported twice. */
module Results {
  import opened Types
  import opened Ops
  import opened Core
  import opened Invariant
  import opened PreserveSlab
  import opened Steps
  import opened Theorems
  import opened Reaping
  import opened Lifetimes
  import opened Delivery
  import Retry

  type Requests = map<OpToken, Request>

  function KindOf(req: Request): OpKind {
    match req
    case ReadRequest(_, _, _, _, _) => Read
    case VectorRequest(_, _, _, _) => Read
    case WriteRequest(_, _, _) => Write
    case FsyncRequest(_) => Fsync
  }

  /** The bytes a request covers. */
  function Length(c: Config, req: Request): nat {
    match req
    case ReadRequest(_, _, _, len, _) => len
    case VectorRequest(_, _, frames, _) => frames * c.granule
    case WriteRequest(_, _, _) => c.granule
    case FsyncRequest(_) => 0
  }

  /** The lease a completion carries: none for a point operation; for a vector read one exactly if bytes
      are left after a short read or its frames belong to the pool, and it says whether to go on. */
  predicate LeaseFits(req: Request, x: Completion) {
    if !req.VectorRequest? then x.lease.None?
    else
      && (x.lease.None? ==> !req.lease.Pool?)
      && (x.lease.Some? ==>
            && (x.lease.value.more <==> BytesOf(x.outcome) > 0 && x.lease.value.remaining > 0)
            && (x.lease.value.more || req.lease.Pool?))
  }

  /** A completion is about a request that was admitted, and claims no more than it covers. A write over
      a ring is reported whole or not at all. */
  predicate Told(c: Config, requests: Requests, x: Completion) {
    && x.token in requests
    && var req := requests[x.token];
       && x.kind == KindOf(req) && LeaseFits(req, x) && BytesOf(x.outcome) <= Length(c, req)
       && (req.WriteRequest? && !c.eager && x.outcome.Ok? ==> x.outcome.bytes == c.granule)
  }

  /** A completion is what its caller should hear of a completion entry: the errno, or the bytes read,
      or for a write its full length; a write that could not move at all is an I/O error. */
  predicate Answers(c: Config, requests: Requests, cqe: Cqe, x: Completion) {
    && x.token == cqe.token && Told(c, requests, x)
    && x.outcome == if cqe.raw < 0 then Err(-cqe.raw)
                    else if !requests[x.token].WriteRequest? then Ok(cqe.raw)
                    else if cqe.raw == 0 then Err(EIO)
                    else Ok(c.granule)
  }

  /** The bytes these completions report of one operation. */
  function Reported(xs: seq<Completion>, t: OpToken): nat {
    if xs == [] then 0
    else (if xs[0].token == t then BytesOf(xs[0].outcome) else 0) + Reported(xs[1..], t)
  }

  lemma {:induction false} ReportedSnoc(xs: seq<Completion>, x: Completion, t: OpToken)
    ensures Reported(xs + [x], t) == Reported(xs, t) + if x.token == t then BytesOf(x.outcome) else 0
  {
    if xs != [] {
      assert (xs + [x])[1..] == xs[1..] + [x];
      ReportedSnoc(xs[1..], x, t);
    }
  }

  // ---------------------------------------------------------------- one completion

  /** No more bytes than the attempt asked for; a write counts what earlier attempts moved. */
  predicate Fits(c: Config, e: Entry, outcome: Outcome) {
    BytesOf(outcome) <= if e.kind.Write? then c.granule else e.requestedLen
  }

  /** The completion of an attempt that fits, told of the request its entry serves. */
  lemma CompletionTells(c: Config, requests: Requests, token: OpToken, e: Entry, outcome: Outcome)
    requires c.granule > 0 && token in requests && Serves(c, requests[token], e) && Fits(c, e, outcome)
    requires e.kind.Write? && !c.eager && outcome.Ok? ==> outcome.bytes == c.granule
    ensures Told(c, requests, CompletionOf(token, e, outcome))
  {
  }

  /** A completion entry leads to a completion unless it is retryable, and that completion answers it.
      Retryable are an interruption, a would-block of a read, and a short write, each with a retry left
      unless the write moved. */
  lemma ReapAnswers(c: Config, s: System)
    requires Reachable(c, s) && !c.eager && s.cq != []
    ensures Offered(c, s, Reap) && AssertsHold(c, s, Reap) && Contains(s.sh.slots, s.cq[0].token)
    ensures var e, raw := EntryAt(s.sh.slots, s.cq[0].token.slot), s.cq[0].raw;
            && (Emitted(c, s) == [] <==>
                  || (e.retries < c.retryBound && (raw == -EINTR || (raw == -EAGAIN && e.kind.Read?)))
                  || (e.retries < c.retryBound && e.kind.Write? && raw == 0)
                  || (e.kind.Write? && 0 < raw < e.requestedLen))
            && (Emitted(c, s) == [] ==> Retryable(c, s.hist.requests, s.cq[0]))
            && (Emitted(c, s) != [] ==>
                  |Emitted(c, s)| == 1 && Answers(c, s.hist.requests, s.cq[0], Emitted(c, s)[0]))
  {
    hide Inv;
    ReapIsSafe(c, s);
    ReachableInv(c, s);
    CqeFacts(c, s);
    hide Apply, Reachable, CompletionOf;
    LiveServesItsRequest(c, s, s.cq[0].token);
    var e := EntryAt(s.sh.slots, s.cq[0].token.slot);
    var p := RingProgress(e, s.cq[0].raw, c.retryBound).1;
    if p.Finished? {
      assert Fits(c, e, p.outcome);
      CompletionTells(c, s.hist.requests, s.cq[0].token, e, p.outcome);
      CompletionCarries(s.cq[0].token, e, p.outcome);
    }
  }

  lemma CompletionCarries(token: OpToken, e: Entry, outcome: Outcome)
    ensures CompletionOf(token, e, outcome).token == token && CompletionOf(token, e, outcome).outcome == outcome
  {
  }

  /** What alone can keep a completion entry from being answered at once. */
  predicate Retryable(c: Config, requests: Requests, cqe: Cqe) {
    && cqe.token in requests
    && var req := requests[cqe.token];
       || cqe.raw == -EINTR
       || (cqe.raw == -EAGAIN && KindOf(req).Read?)
       || (req.WriteRequest? && 0 <= cqe.raw < c.granule)
  }

  /** In order, and each for one entry of its own, the completions answer completion entries; an entry
      that has none was retryable. */
  predicate Replies(c: Config, requests: Requests, cqes: seq<Cqe>, done: seq<Completion>)
    decreases |cqes|
  {
    if cqes == [] then done == []
    else
      || (Retryable(c, requests, cqes[0]) && Replies(c, requests, cqes[1..], done))
      || (done != [] && Answers(c, requests, cqes[0], done[0]) && Replies(c, requests, cqes[1..], done[1..]))
  }

  lemma RepliesNothing(c: Config, requests: Requests)
    ensures Replies(c, requests, [], [])
  {
  }

  lemma {:induction false} RepliesConcat(c: Config, requests: Requests, x: seq<Cqe>, y: seq<Cqe>,
                                         xs: seq<Completion>, ys: seq<Completion>)
    requires Replies(c, requests, x, xs) && Replies(c, requests, y, ys)
    ensures Replies(c, requests, x + y, xs + ys)
    decreases |x|
  {
    hide Answers, Retryable;
    if x == [] {
      assert x + y == y && xs + ys == ys;
    } else {
      assert (x + y)[1..] == x[1..] + y;
      if Retryable(c, requests, x[0]) && Replies(c, requests, x[1..], xs) {
        RepliesConcat(c, requests, x[1..], y, xs, ys);
      } else {
        assert (xs + ys)[1..] == xs[1..] + ys;
        RepliesConcat(c, requests, x[1..], y, xs[1..], ys);
      }
    }
  }

  /** A harvest took its entries off the queue in order, handed its caller exactly its completions, and
      these answer the entries. */
  predicate Harvested(c: Config, s: System, h: Harvest) {
    && h.count <= |s.cq| && h.s.cq == s.cq[h.count..] && h.s.hist.requests == s.hist.requests
    && h.s.hist.delivered == s.hist.delivered + h.done
    && Replies(c, s.hist.requests, s.cq[..h.count], h.done)
  }

  lemma HarvestNothing(c: Config, s: System)
    ensures Harvested(c, s, Harvest(s, [], [], 0))
  {
    assert s.hist.delivered + [] == s.hist.delivered;
  }

  lemma HarvestOne(c: Config, s: System)
    requires Reachable(c, s) && !c.eager && s.cq != []
    ensures Offered(c, s, Reap) && AssertsHold(c, s, Reap)
    ensures Harvested(c, s, Harvest(Apply(c, s, Reap), Emitted(c, s), RetireDueAt(c, s), 1))
  {
    hide Apply, AssertsHold, Offered, Exhausted, Reachable, Emitted, RetireDueAt, Answers, Retryable;
    ReapIsSafe(c, s);
    ReapPops(c, s);
    ReapDelivered(c, s);
    ReapAnswers(c, s);
    var taken, first := s.cq[..1], Emitted(c, s);
    assert taken[1..] == [] && Replies(c, s.hist.requests, taken[1..], []);
    if first != [] { assert first[1..] == [] && taken[0] == s.cq[0]; }
    assert Replies(c, s.hist.requests, taken, first);
  }

  lemma HarvestJoin(c: Config, s: System, a: Harvest, b: Harvest)
    requires Harvested(c, s, a) && Harvested(c, a.s, b)
    ensures Harvested(c, s, Join(a, b))
  {
    hide Replies;
    RepliesConcat(c, s.hist.requests, s.cq[..a.count], a.s.cq[..b.count], a.done, b.done);
    assert s.cq[..a.count] + a.s.cq[..b.count] == s.cq[..a.count + b.count];
    assert s.hist.delivered + a.done + b.done == s.hist.delivered + (a.done + b.done);
  }

  /** A pass over the queue is such a harvest. */
  lemma {:induction false} PassAnswers(c: Config, s: System, limit: nat, stop: bool)
    requires Reachable(c, s) && !c.eager
    ensures Harvested(c, s, Pass(c, s, limit, stop))
    decreases limit
  {
    hide Apply, AssertsHold, Offered, Exhausted, Reachable, Emitted, RetireDueAt, Harvested;
    if limit == 0 || s.cq == [] {
      HarvestNothing(c, s);
    } else {
      ReapIsSafe(c, s);
      HarvestOne(c, s);
      var here := Harvest(Apply(c, s, Reap), Emitted(c, s), RetireDueAt(c, s), 1);
      PassAnswers(c, here.s, limit - 1, stop);
      HarvestJoin(c, s, here, Pass(c, here.s, limit - 1, stop));
    }
  }

  lemma ReapDelivered(c: Config, s: System)
    requires c.Valid() && Offered(c, s, Reap) && AssertsHold(c, s, Reap)
    ensures Apply(c, s, Reap).hist.delivered == s.hist.delivered + Emitted(c, s)
    ensures Apply(c, s, Reap).hist.requests == s.hist.requests
  {
    hide Finish;
    var slot := s.cq[0].token.slot;
    assert s.hist.delivered + [] == s.hist.delivered;
    var p := RingProgress(EntryAt(s.sh.slots, slot), s.cq[0].raw, c.retryBound).1;
    if p.Finished? { FinishShape(c, s.(cq := s.cq[1..]), slot, p.outcome); }
  }

  lemma FinishShape(c: Config, s: System, slot: nat, outcome: Outcome)
    requires c.granule > 0 && Occupied(s.sh.slots, slot)
    requires EndingOf(EntryAt(s.sh.slots, slot), outcome).Freed? ==>
               CanComplete(s.sh.files, EntryAt(s.sh.slots, slot).fd)
    ensures var s' := Finish(c, s, slot, outcome);
            && s'.sh.slots == FinishAttempt(c, s.sh, slot, outcome).slots && s'.sh.backlog == s.sh.backlog
            && s'.hist.delivered == s.hist.delivered && s'.hist.requests == s.hist.requests
            && s'.hist.issued == s.hist.issued
  {
  }

  // ---------------------------------------------------------------- execution outside the lock

  /** One execution by the eager backend: the operation it was given, the faults it met, the requests it
      made and how it came out. */
  datatype Carried = Carried(token: OpToken, e: Entry, faults: seq<Retry.Injected>, asked: seq<Retry.Ask>,
                             outcome: Outcome)

  /** A stored operation as the retry loop starts on it. */
  function Begun(e: Entry): Entry {
    e.(vector := false, frame := false, lease := Absent, writeSlot := None, retries := 0, state := Active)
  }

  /** The requests and the outcome are those of a run of the operation under its faults. */
  predicate RanAs(c: Config, r: Carried) {
    && Retry.FaultsFit(Begun(r.e), c.retryBound, r.faults)
    && var run := Retry.RingRun(Begun(r.e), c.retryBound, r.faults);
       r.asked == run.asked && r.outcome == run.outcome
  }

  /** A completion is what its caller should hear of an execution, and what was executed is what they
      asked for. A write is executed from the start of its staging slot and reported whole or not at all. */
  predicate Concerns(c: Config, requests: Requests, r: Carried, x: Completion) {
    && x.token == r.token && x.outcome == r.outcome && Told(c, requests, x)
    && c.granule > 0 && Serves(c, requests[r.token], r.e) && RanAs(c, r)
    && (x.kind.Write? ==> r.e.requestedLen == c.granule && (x.outcome.Ok? ==> x.outcome.bytes == c.granule))
  }

  /** The completion of a published execution. */
  lemma CarriedConcerns(c: Config, s: System, r: Carried)
    requires Reachable(c, s) && c.eager && Contains(s.sh.slots, r.token) && EntryAt(s.sh.slots, r.token.slot) == r.e
    requires RanAs(c, r) && OutcomeFits(r.e, r.outcome)
    requires r.e.kind.Write? && r.outcome.Ok? ==> r.outcome.bytes == r.e.requestedLen
    ensures Concerns(c, s.hist.requests, r, CompletionOf(r.token, r.e, r.outcome))
  {
    hide RanAs;
    LiveServesItsRequest(c, s, r.token);
    if r.e.kind.Write? { EagerWritesAreWhole(c, s, r.token.slot); }
    hide Reachable;
    CompletionTells(c, s.hist.requests, r.token, r.e, r.outcome);
  }

  // ---------------------------------------------------------------- what every run reports

  ghost predicate AllTold(c: Config, requests: Requests, xs: seq<Completion>) {
    forall k | 0 <= k < |xs| :: Told(c, requests, xs[k])
  }

  /** What a vector read had transferred before its present attempt. */
  function DoneBefore(req: Request, e: Entry): nat {
    if req.VectorRequest? && req.offset <= e.fileOffset then e.fileOffset - req.offset else 0
  }

  /** How many bytes of an operation have been reported: none of an unknown one; of one that is not over,
      what its earlier completions transferred; never more than it covers. */
  predicate SumOk(c: Config, requests: Requests, slots: seq<SlabSlot>, t: OpToken, total: nat) {
    if t !in requests then total == 0
    else if !Over(slots, t) then total == DoneBefore(requests[t], EntryAt(slots, t.slot))
    else total <= Length(c, requests[t])
  }

  ghost predicate SumsOk(c: Config, requests: Requests, slots: seq<SlabSlot>, delivered: seq<Completion>,
                         backlog: seq<Completion>) {
    forall t: OpToken :: SumOk(c, requests, slots, t, Reported(delivered, t) + Reported(backlog, t))
  }

  /** The result a kept read holds in its slot was told, as its last. */
  ghost predicate KeptOk(slots: seq<SlabSlot>, delivered: seq<Completion>, backlog: seq<Completion>) {
    forall t: OpToken | Contains(slots, t) && EntryAt(slots, t.slot).state.Terminal? ::
      ToldLast(delivered + backlog, t, EntryAt(slots, t.slot).state.outcome)
  }

  ghost predicate ToldLast(xs: seq<Completion>, t: OpToken, outcome: Outcome) {
    exists x | x in xs :: EndOf(t)(x) && x.outcome == outcome
  }

  ghost predicate ReportsOk(c: Config, s: System) {
    && s.hist.requests.Keys == s.hist.issued
    && AllTold(c, s.hist.requests, s.hist.delivered) && AllTold(c, s.hist.requests, s.sh.backlog)
    && SumsOk(c, s.hist.requests, s.sh.slots, s.hist.delivered, s.sh.backlog)
    && KeptOk(s.sh.slots, s.hist.delivered, s.sh.backlog)
  }

  /** An attempt that ends adds its bytes to the account, whether its completion is handed out or kept. */
  lemma SumsEmit(c: Config, requests: Requests, sh: Shared, delivered: seq<Completion>, slot: nat, outcome: Outcome)
    requires c.granule > 0 && SumsOk(c, requests, sh.slots, delivered, sh.backlog)
    requires InState(sh.slots, slot, Active) && TokenAt(sh.slots, slot) in requests
    requires var e := EntryAt(sh.slots, slot);
             && Serves(c, requests[TokenAt(sh.slots, slot)], e) && Fits(c, e, outcome)
             && (EndingOf(e, outcome).Freed? ==> CanComplete(sh.files, e.fd))
    ensures var slots := FinishAttempt(c, sh, slot, outcome).slots;
            var x := CompletionOf(TokenAt(sh.slots, slot), EntryAt(sh.slots, slot), outcome);
            && SumsOk(c, requests, slots, delivered + [x], sh.backlog)
            && SumsOk(c, requests, slots, delivered, sh.backlog + [x])
  {
    var slots := FinishAttempt(c, sh, slot, outcome).slots;
    var x := CompletionOf(TokenAt(sh.slots, slot), EntryAt(sh.slots, slot), outcome);
    forall t: OpToken
      ensures SumOk(c, requests, slots, t, Reported(delivered + [x], t) + Reported(sh.backlog, t))
      ensures SumOk(c, requests, slots, t, Reported(delivered, t) + Reported(sh.backlog + [x], t))
    {
      ReportedSnoc(delivered, x, t);
      ReportedSnoc(sh.backlog, x, t);
      var total := Reported(delivered, t) + Reported(sh.backlog, t);
      assert SumOk(c, requests, sh.slots, t, total);
      hide Reported;
      SumEmit(c, requests, sh, slot, outcome, t, total);
    }
  }

  lemma SumEmit(c: Config, requests: Requests, sh: Shared, slot: nat, outcome: Outcome, t: OpToken, total: nat)
    requires c.granule > 0 && SumOk(c, requests, sh.slots, t, total)
    requires InState(sh.slots, slot, Active) && TokenAt(sh.slots, slot) in requests
    requires var e := EntryAt(sh.slots, slot);
             && Serves(c, requests[TokenAt(sh.slots, slot)], e) && Fits(c, e, outcome)
             && (EndingOf(e, outcome).Freed? ==> CanComplete(sh.files, e.fd))
    ensures SumOk(c, requests, FinishAttempt(c, sh, slot, outcome).slots, t,
                  total + if t == TokenAt(sh.slots, slot) then BytesOf(outcome) else 0)
  {
  }

  /** The account after an attempt has ended, with its completion handed out or in the backlog. */
  lemma EmitReports(c: Config, s: System, slot: nat, outcome: Outcome, s': System)
    requires c.granule > 0 && ReportsOk(c, s) && InState(s.sh.slots, slot, Active)
    requires TokenAt(s.sh.slots, slot) in s.hist.requests
    requires var e := EntryAt(s.sh.slots, slot);
             && Serves(c, s.hist.requests[TokenAt(s.sh.slots, slot)], e) && Fits(c, e, outcome)
             && (EndingOf(e, outcome).Freed? ==> CanComplete(s.sh.files, e.fd))
             && (e.kind.Write? && !c.eager && outcome.Ok? ==> outcome.bytes == c.granule)
    requires s'.sh.slots == FinishAttempt(c, s.sh, slot, outcome).slots
    requires s'.hist.requests == s.hist.requests && s'.hist.issued == s.hist.issued
    requires var x := CompletionOf(TokenAt(s.sh.slots, slot), EntryAt(s.sh.slots, slot), outcome);
             || (s'.hist.delivered == s.hist.delivered + [x] && s'.sh.backlog == s.sh.backlog)
             || (s'.hist.delivered == s.hist.delivered && s'.sh.backlog == s.sh.backlog + [x])
    ensures ReportsOk(c, s')
  {
    var x := CompletionOf(TokenAt(s.sh.slots, slot), EntryAt(s.sh.slots, slot), outcome);
    CompletionTells(c, s.hist.requests, TokenAt(s.sh.slots, slot), EntryAt(s.sh.slots, slot), outcome);
    SumsEmit(c, s.hist.requests, s.sh, s.hist.delivered, slot, outcome);
    KeptEmit(c, s, slot, outcome, s');
    hide Told, SumsOk, KeptOk, CompletionOf, FinishAttempt, Serves, Fits;
  }

  lemma KeptEmit(c: Config, s: System, slot: nat, outcome: Outcome, s': System)
    requires c.granule > 0 && KeptOk(s.sh.slots, s.hist.delivered, s.sh.backlog) && Occupied(s.sh.slots, slot)
    requires EndingOf(EntryAt(s.sh.slots, slot), outcome).Freed? ==>
               CanComplete(s.sh.files, EntryAt(s.sh.slots, slot).fd)
    requires s'.sh.slots == FinishAttempt(c, s.sh, slot, outcome).slots
    requires var x := CompletionOf(TokenAt(s.sh.slots, slot), EntryAt(s.sh.slots, slot), outcome);
             || (s'.hist.delivered == s.hist.delivered + [x] && s'.sh.backlog == s.sh.backlog)
             || (s'.hist.delivered == s.hist.delivered && s'.sh.backlog == s.sh.backlog + [x])
    ensures KeptOk(s'.sh.slots, s'.hist.delivered, s'.sh.backlog)
  {
    var x := CompletionOf(TokenAt(s.sh.slots, slot), EntryAt(s.sh.slots, slot), outcome);
    var xs, xs' := s.hist.delivered + s.sh.backlog, s'.hist.delivered + s'.sh.backlog;
    assert x in xs' && forall y | y in xs :: y in xs';
    forall t: OpToken | Contains(s'.sh.slots, t) && EntryAt(s'.sh.slots, t.slot).state.Terminal?
      ensures ToldLast(xs', t, EntryAt(s'.sh.slots, t.slot).state.outcome)
    {
      if t == TokenAt(s.sh.slots, slot) {
        assert EndOf(t)(x);
      } else {
        assert Contains(s.sh.slots, t) && ToldLast(xs, t, EntryAt(s.sh.slots, t.slot).state.outcome);
      }
    }
  }

  /** Slots whose operations were neither moved, ended nor replaced. */
  ghost predicate Still(slots: seq<SlabSlot>, slots': seq<SlabSlot>) {
    forall t: OpToken ::
      && Contains(slots', t) == Contains(slots, t)
      && (Contains(slots, t) ==>
            var e, e' := EntryAt(slots, t.slot), EntryAt(slots', t.slot);
            && e'.state.Terminal? == e.state.Terminal? && (e.state.Terminal? ==> e'.state == e.state)
            && e'.vector == e.vector && (e.vector ==> e'.fileOffset == e.fileOffset))
  }

  lemma StillReports(c: Config, s: System, s': System)
    requires Reachable(c, s) && ReportsOk(c, s) && Still(s.sh.slots, s'.sh.slots)
    requires s'.hist.requests == s.hist.requests && s'.hist.issued == s.hist.issued
    requires s'.hist.delivered == s.hist.delivered && s'.sh.backlog == s.sh.backlog
    ensures ReportsOk(c, s')
  {
    hide Reachable, AllTold, Reported, ToldLast;
    forall t: OpToken | t in s.hist.requests && !Over(s.sh.slots, t)
      ensures DoneBefore(s.hist.requests[t], EntryAt(s.sh.slots, t.slot))
              == DoneBefore(s.hist.requests[t], EntryAt(s'.sh.slots, t.slot))
    {
      LiveServesItsRequest(c, s, t);
    }
    hide DoneBefore;
    forall t: OpToken
      ensures SumOk(c, s.hist.requests, s'.sh.slots, t, Reported(s.hist.delivered, t) + Reported(s.sh.backlog, t))
    {
      assert SumOk(c, s.hist.requests, s.sh.slots, t, Reported(s.hist.delivered, t) + Reported(s.sh.backlog, t));
    }
  }

  /** A slot given back: its operation is over, with what was reported so far. */
  lemma VacateReports(c: Config, s: System, slot: nat, s': System)
    requires Reachable(c, s) && ReportsOk(c, s) && Occupied(s.sh.slots, slot)
    requires s'.sh.slots == Vacate(s.sh.slots, slot)
    requires s'.hist.requests == s.hist.requests && s'.hist.issued == s.hist.issued
    requires s'.hist.delivered == s.hist.delivered && s'.sh.backlog == s.sh.backlog
    ensures ReportsOk(c, s')
  {
    hide Reachable, AllTold, Reported, ToldLast;
    LiveServesItsRequest(c, s, TokenAt(s.sh.slots, slot));
    forall t: OpToken
      ensures SumOk(c, s.hist.requests, s'.sh.slots, t, Reported(s.hist.delivered, t) + Reported(s.sh.backlog, t))
    {
      assert SumOk(c, s.hist.requests, s.sh.slots, t, Reported(s.hist.delivered, t) + Reported(s.sh.backlog, t));
    }
    assert forall t: OpToken | Contains(s'.sh.slots, t) ::
        Contains(s.sh.slots, t) && EntryAt(s'.sh.slots, t.slot) == EntryAt(s.sh.slots, t.slot);
  }

  lemma DrainReports(c: Config, s: System, s': System)
    requires ReportsOk(c, s) && s.sh.backlog != [] && s'.sh.slots == s.sh.slots
    requires s'.hist.requests == s.hist.requests && s'.hist.issued == s.hist.issued
    requires s'.hist.delivered == s.hist.delivered + [s.sh.backlog[0]] && s'.sh.backlog == s.sh.backlog[1..]
    ensures ReportsOk(c, s')
  {
    assert s'.hist.delivered + s'.sh.backlog == s.hist.delivered + s.sh.backlog;
    forall t: OpToken
      ensures Reported(s'.hist.delivered, t) + Reported(s'.sh.backlog, t)
              == Reported(s.hist.delivered, t) + Reported(s.sh.backlog, t)
    {
      ReportedSnoc(s.hist.delivered, s.sh.backlog[0], t);
    }
    hide Reported, ToldLast, Told, SumOk;
    forall t: OpToken
      ensures SumOk(c, s.hist.requests, s'.sh.slots, t, Reported(s'.hist.delivered, t) + Reported(s'.sh.backlog, t))
    {
      assert SumOk(c, s.hist.requests, s.sh.slots, t, Reported(s.hist.delivered, t) + Reported(s.sh.backlog, t));
    }
  }

  lemma SubmitReports(c: Config, s: System, req: Request, slot: nat, s': System)
    requires ReportsOk(c, s) && slot < |s.sh.slots| && s.sh.slots[slot].payload.None?
    requires var t := OpToken(slot, s.sh.slots[slot].generation + 1);
             && t !in s.hist.issued && s'.hist.issued == s.hist.issued + {t}
             && s'.hist.requests == s.hist.requests[t := req]
             && s'.sh.slots == s.sh.slots[slot := SlabSlot(t.generation, Some(EntryOf(c, req)))]
    requires s'.hist.delivered == s.hist.delivered && s'.sh.backlog == s.sh.backlog
    ensures ReportsOk(c, s')
  {
    hide Reported, ToldLast;
    forall t: OpToken
      ensures SumOk(c, s'.hist.requests, s'.sh.slots, t, Reported(s.hist.delivered, t) + Reported(s.sh.backlog, t))
    {
      assert SumOk(c, s.hist.requests, s.sh.slots, t, Reported(s.hist.delivered, t) + Reported(s.sh.backlog, t));
    }
    assert forall t: OpToken | Contains(s'.sh.slots, t) && EntryAt(s'.sh.slots, t.slot).state.Terminal? ::
        Contains(s.sh.slots, t) && EntryAt(s'.sh.slots, t.slot) == EntryAt(s.sh.slots, t.slot);
  }

  lemma ReapReports(c: Config, s: System)
    requires c.Valid() && Reachable(c, s) && Offered(c, s, Reap) && AssertsHold(c, s, Reap) && ReportsOk(c, s)
    ensures ReportsOk(c, Apply(c, s, Reap))
  {
    hide Inv, ReportsOk, Finish, FinishAttempt, Reachable, CompletionOf, Still;
    ReachableInv(c, s);
    CqeFacts(c, s);
    LiveServesItsRequest(c, s, s.cq[0].token);
    var slot := s.cq[0].token.slot;
    var e := EntryAt(s.sh.slots, slot);
    match RingProgress(e, s.cq[0].raw, c.retryBound).1
    case Resubmit =>
      RestateStill(s.sh.slots, slot, EntryAt(Apply(c, s, Reap).sh.slots, slot));
      StillReports(c, s, Apply(c, s, Reap));
    case Finished(outcome) =>
      FinishShape(c, s.(cq := s.cq[1..]), slot, outcome);
      EmitReports(c, s, slot, outcome, Apply(c, s, Reap));
  }

  lemma PublishReports(c: Config, s: System, step: Step)
    requires c.Valid() && Reachable(c, s) && step.Publish? && Offered(c, s, step) && AssertsHold(c, s, step)
    requires ReportsOk(c, s)
    ensures ReportsOk(c, Apply(c, s, step))
  {
    hide Inv, ReportsOk, Finish, FinishAttempt, Reachable, CompletionOf;
    var slot := step.token.slot;
    ReachableInv(c, s);
    FlightIsLive(c, s, step.token);
    LiveServesItsRequest(c, s, step.token);
    FinishShape(c, s.(executing := s.executing - {step.token}), slot, step.outcome);
    EmitReports(c, s, slot, step.outcome, Apply(c, s, step));
  }

  lemma FlightIsLive(c: Config, s: System, token: OpToken)
    requires Inv(c, s) && token in s.executing
    ensures Contains(s.sh.slots, token)
  {
    hide SlabOk, EntriesOk, ReadyOk, FlightOk, LeaseOk, FilesOk, RetireOk, BackendOk, KnownOk, ArenaOk, RoomOk,
         TokensOk, ScatterOk, CloseOk;
    FlightLive(s.sh.slots, s.executing, s.cq, token);
  }

  lemma GiveBackShape(c: Config, s: System, slot: nat)
    requires IsHeld(s.sh.slots, slot) && CanComplete(s.sh.files, EntryAt(s.sh.slots, slot).fd)
    ensures var s' := GiveBack(c, s, slot);
            && s'.sh.slots == Vacate(s.sh.slots, slot) && s'.sh.backlog == s.sh.backlog
            && s'.hist.delivered == s.hist.delivered && s'.hist.requests == s.hist.requests
            && s'.hist.issued == s.hist.issued
  {
  }

  lemma ReturnReports(c: Config, s: System, step: Step)
    requires step.DropLease? || step.Abandon?
    requires Reachable(c, s) && Offered(c, s, step) && AssertsHold(c, s, step) && ReportsOk(c, s)
    ensures ReportsOk(c, Apply(c, s, step))
  {
    hide GiveBack, ReportsOk;
    var slot := if step.Abandon? then step.slot else step.token.slot;
    if step.Abandon? || Contains(s.sh.slots, step.token) {
      GiveBackShape(c, s, slot);
      VacateReports(c, s, slot, Apply(c, s, step));
    } else {
      StillReports(c, s, Apply(c, s, step));
    }
  }

  /** Steps that tell nobody anything and end nothing. */
  lemma QuietReports(c: Config, s: System, step: Step)
    requires Reachable(c, s) && Offered(c, s, step) && AssertsHold(c, s, step)
    requires !step.Reap? && !step.Publish? && !step.Drain? && !step.DropLease? && !step.Abandon?
    requires !(step.Submit? && Admit(c, s.sh, step.req.fd).Admitted?)
    ensures var s' := Apply(c, s, step);
            && Still(s.sh.slots, s'.sh.slots) && s'.hist.requests == s.hist.requests
            && s'.hist.issued == s.hist.issued
            && s'.hist.delivered == s.hist.delivered && s'.sh.backlog == s.sh.backlog
  {
    hide Still;
    var slots := s.sh.slots;
    match step
    case Prepare => RestateStill(slots, s.sh.ready[0], EntryAt(Activate(c, s.sh).slots, s.sh.ready[0]));
    case Continue(token) => RestateStill(slots, token.slot, EntryAt(Resume(s.sh, token.slot).slots, token.slot));
    case _ => SameStill(slots);
  }

  lemma RestateStill(slots: seq<SlabSlot>, i: nat, e: Entry)
    requires Occupied(slots, i) && !EntryAt(slots, i).state.Terminal? && !e.state.Terminal?
    requires e.vector == EntryAt(slots, i).vector && (e.vector ==> e.fileOffset == EntryAt(slots, i).fileOffset)
    ensures Still(slots, SetEntry(slots, i, e))
  {
  }

  lemma SameStill(slots: seq<SlabSlot>)
    ensures Still(slots, slots)
  {
  }

  lemma StepReports(c: Config, s: System, step: Step)
    requires Reachable(c, s) && Offered(c, s, step) && AssertsHold(c, s, step) && !Exhausted(c, s, step)
    requires ReportsOk(c, s)
    ensures ReportsOk(c, Apply(c, s, step))
  {
    hide Apply, AssertsHold, Offered, Exhausted, ReportsOk, Admit, Still;
    if step.Reap? {
      ReapReports(c, s);
    } else if step.Publish? {
      PublishReports(c, s, step);
    } else if step.DropLease? || step.Abandon? {
      ReturnReports(c, s, step);
    } else if step.Drain? {
      DrainShape(c, s);
      DrainReports(c, s, Apply(c, s, Drain));
    } else if step.Submit? && Admit(c, s.sh, step.req.fd).Admitted? {
      TokensAreFresh(c, s, step.req, step.position);
      SubmitRecords(c, s, step.req, step.position);
      SubmitShape(c, s, step.req, step.position);
      SubmitReports(c, s, step.req, Admit(c, s.sh, step.req.fd).slot, Apply(c, s, step));
    } else {
      QuietReports(c, s, step);
      StillReports(c, s, Apply(c, s, step));
    }
  }

  lemma DrainShape(c: Config, s: System)
    requires c.Valid() && Offered(c, s, Drain) && AssertsHold(c, s, Drain)
    ensures var s' := Apply(c, s, Drain);
            && s.sh.backlog != [] && s'.sh.slots == s.sh.slots && s'.hist.requests == s.hist.requests
            && s'.hist.issued == s.hist.issued
            && s'.hist.delivered == s.hist.delivered + [s.sh.backlog[0]] && s'.sh.backlog == s.sh.backlog[1..]
  {
  }

  lemma SubmitShape(c: Config, s: System, req: Request, position: nat)
    requires c.Valid() && Offered(c, s, Submit(req, position)) && AssertsHold(c, s, Submit(req, position))
    requires Admit(c, s.sh, req.fd).Admitted?
    ensures var s', slot := Apply(c, s, Submit(req, position)), Admit(c, s.sh, req.fd).slot;
            && slot < |s.sh.slots| && s.sh.slots[slot].payload.None?
            && s'.hist.delivered == s.hist.delivered && s'.sh.backlog == s.sh.backlog
  {
  }

  lemma {:induction false} RunReports(c: Config, s: System, steps: seq<Step>, t: System)
    requires Reachable(c, s) && ReportsOk(c, s) && Run(c, s, steps, t)
    ensures ReportsOk(c, t)
    decreases |steps|
  {
    hide Apply, AssertsHold, Exhausted, Offered, ReportsOk;
    if steps != [] {
      StepReports(c, s, steps[0]);
      ReachableStep(c, s, steps[0]);
      RunReports(c, Apply(c, s, steps[0]), steps[1..], t);
    }
  }

  lemma ReachableReports(c: Config, s: System)
    requires Reachable(c, s)
    ensures ReportsOk(c, s)
  {
    var steps :| Run(c, Init(c), steps, s);
    assert Run(c, Init(c), [], Init(c));
    RunReports(c, Init(c), steps, s);
  }

  // ---------------------------------------------------------------- the laws

  /** Everything a caller was told, or will be, is about a request that was admitted and truly of its
      kind, claims no more bytes than it covers, and carries a lease just where one is due. */
  lemma EveryResultIsTrue(c: Config, s: System, x: Completion)
    requires Reachable(c, s) && (x in s.hist.delivered || x in s.sh.backlog)
    ensures x.token in s.hist.issued && Told(c, s.hist.requests, x)
  {
    ReachableReports(c, s);
  }

  /** The bytes reported of an operation, over all its completions, never exceed what it covers. Until it
      is over, those of a vector read and what it still asks for make up the whole, and of any other
      operation none has been reported. */
  lemma BytesAreReportedOnce(c: Config, s: System, t: OpToken)
    requires Reachable(c, s) && t in s.hist.issued
    ensures t in s.hist.requests
    ensures var req, total := s.hist.requests[t], Reported(s.hist.delivered, t) + Reported(s.sh.backlog, t);
            && total <= Length(c, req)
            && (!Over(s.sh.slots, t) ==>
                  if req.VectorRequest? then total + EntryAt(s.sh.slots, t.slot).requestedLen == Length(c, req)
                  else total == 0)
  {
    ReachableReports(c, s);
    assert SumOk(c, s.hist.requests, s.sh.slots, t, Reported(s.hist.delivered, t) + Reported(s.sh.backlog, t));
    if !Over(s.sh.slots, t) { LiveServesItsRequest(c, s, t); }
  }

  /** A live lease that is dropped defers one completion, of the file its request named: an I/O error if
      the read was to go on, else the very result its caller was told last. */
  lemma DroppedLeaseDefers(c: Config, s: System, token: OpToken)
    requires Reachable(c, s) && token in s.held && Contains(s.sh.slots, token)
    ensures Offered(c, s, DropLease(token)) && AssertsHold(c, s, DropLease(token))
    ensures var deferred := Apply(c, s, DropLease(token)).sh.deferred;
            && |deferred| == |s.sh.deferred| + 1 && deferred[..|s.sh.deferred|] == s.sh.deferred
            && var d := deferred[|s.sh.deferred|];
               && token in s.hist.requests && d.fd == s.hist.requests[token].fd
               && if s.held[token].more then d.outcome == Err(EIO)
                  else ToldLast(s.hist.delivered + s.sh.backlog, token, d.outcome)
  {
    hide ToldLast, Inv, ReportsOk;
    NoAssertFires(c, s, DropLease(token));
    LiveServesItsRequest(c, s, token);
    ReachableReports(c, s);
    ReachableInv(c, s);
    LeaseIsLive(c, s, token);
    if !s.held[token].more { KeptWasTold(c, s, token); }
  }

  lemma KeptWasTold(c: Config, s: System, t: OpToken)
    requires ReportsOk(c, s) && Contains(s.sh.slots, t) && EntryAt(s.sh.slots, t.slot).state.Terminal?
    ensures ToldLast(s.hist.delivered + s.sh.backlog, t, EntryAt(s.sh.slots, t.slot).state.outcome)
  {
  }
}
