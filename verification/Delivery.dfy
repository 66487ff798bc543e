/** Results reach their callers: what was emitted has been delivered once or waits in the backlog. */
module Delivery {
  import opened Types
  import opened Counting
  import opened Ops
  import opened Core
  import opened Theorems

  /** The completion is its operation's last. */
  predicate Concludes(done: Completion) { done.lease.Some? ==> !done.lease.value.more }

  /** The completions that end the operation. */
  function EndOf(t: OpToken): Completion -> bool { (x: Completion) => Concludes(x) && x.token == t }

  ghost predicate DeliveryOk(s: System) {
    forall t: OpToken :: s.hist.ended[t] == Count(s.hist.delivered, EndOf(t)) + Count(s.sh.backlog, EndOf(t))
  }

  lemma FinishEnds(c: Config, s: System, slot: nat, outcome: Outcome)
    requires c.granule > 0 && Occupied(s.sh.slots, slot)
    requires EndingOf(EntryAt(s.sh.slots, slot), outcome).Freed? ==>
               CanComplete(s.sh.files, EntryAt(s.sh.slots, slot).fd)
    ensures var s', token := Finish(c, s, slot, outcome), TokenAt(s.sh.slots, slot);
            var done := CompletionOf(token, EntryAt(s.sh.slots, slot), outcome);
            && s'.hist.ended == (if Concludes(done) then s.hist.ended + multiset{token} else s.hist.ended)
            && s'.hist.delivered == s.hist.delivered && s'.sh.backlog == s.sh.backlog
  {
  }

  lemma GiveBackEnds(c: Config, s: System, slot: nat)
    requires IsHeld(s.sh.slots, slot) && CanComplete(s.sh.files, EntryAt(s.sh.slots, slot).fd)
    ensures var s' := GiveBack(c, s, slot);
            && s'.hist.ended == s.hist.ended && s'.hist.delivered == s.hist.delivered
            && s'.sh.backlog == s.sh.backlog
  {
  }

  /** A completion handed out or stored, after its attempt ended. */
  lemma DeliverEnds(f: System, done: Completion, s: System)
    requires DeliveryOk(s) && f.hist.delivered == s.hist.delivered && f.sh.backlog == s.sh.backlog
    requires f.hist.ended == if Concludes(done) then s.hist.ended + multiset{done.token} else s.hist.ended
    ensures DeliveryOk(Deliver(f, done))
    ensures forall f': System | f'.hist == f.hist && f'.sh.backlog == f.sh.backlog + [done] :: DeliveryOk(f')
  {
    forall t: OpToken
      ensures Count(f.sh.backlog + [done], EndOf(t)) == Count(f.sh.backlog, EndOf(t)) + One(EndOf(t)(done))
      ensures Count(f.hist.delivered + [done], EndOf(t)) == Count(f.hist.delivered, EndOf(t)) + One(EndOf(t)(done))
    {
      CountAppend(f.sh.backlog, done, EndOf(t));
      CountAppend(f.hist.delivered, done, EndOf(t));
    }
    hide Count;
  }

  lemma DrainEnds(s: System)
    requires DeliveryOk(s) && s.sh.backlog != []
    ensures DeliveryOk(Deliver(s.(sh := s.sh.(backlog := s.sh.backlog[1..])), s.sh.backlog[0]))
  {
    var done, rest := s.sh.backlog[0], s.sh.backlog[1..];
    forall t: OpToken
      ensures Count(s.sh.backlog, EndOf(t)) == Count(rest, EndOf(t)) + One(EndOf(t)(done))
      ensures Count(s.hist.delivered + [done], EndOf(t)) == Count(s.hist.delivered, EndOf(t)) + One(EndOf(t)(done))
    {
      CountAppend(s.hist.delivered, done, EndOf(t));
    }
    hide Count;
  }

  lemma StepDelivers(c: Config, s: System, step: Step)
    requires c.Valid() && Offered(c, s, step) && AssertsHold(c, s, step) && DeliveryOk(s)
    ensures DeliveryOk(Apply(c, s, step))
  {
    hide Apply, AssertsHold, Offered, DeliveryOk;
    if step.Reap? {
      ReapDelivers(c, s);
    } else if step.Publish? {
      PublishDelivers(c, s, step);
    } else if step.DropLease? || step.Abandon? {
      ReturnDelivers(c, s, step);
    } else if step.Drain? {
      DrainDelivers(c, s);
    } else {
      QuietSteps(c, s, step);
      SameDelivery(s, Apply(c, s, step));
    }
  }

  lemma DrainDelivers(c: Config, s: System)
    requires c.Valid() && Offered(c, s, Drain) && DeliveryOk(s)
    ensures DeliveryOk(Apply(c, s, Drain))
  {
    DrainEnds(s);
  }

  /** A published completion, to its caller or into the backlog. */
  lemma PublishDelivers(c: Config, s: System, step: Step)
    requires c.Valid() && step.Publish? && Offered(c, s, step) && AssertsHold(c, s, step) && DeliveryOk(s)
    ensures DeliveryOk(Apply(c, s, step))
  {
    hide Finish, Deliver, DeliveryOk;
    var s0, slot := s.(executing := s.executing - {step.token}), step.token.slot;
    FinishEnds(c, s0, slot, step.outcome);
    DeliverEnds(Finish(c, s0, slot, step.outcome),
                CompletionOf(TokenAt(s.sh.slots, slot), EntryAt(s.sh.slots, slot), step.outcome), s);
  }

  /** A lease given back ends nothing. */
  lemma ReturnDelivers(c: Config, s: System, step: Step)
    requires c.Valid() && (step.DropLease? || step.Abandon?) && Offered(c, s, step) && AssertsHold(c, s, step)
    requires DeliveryOk(s)
    ensures DeliveryOk(Apply(c, s, step))
  {
    hide GiveBack, DeliveryOk;
    var slot := if step.Abandon? then step.slot else step.token.slot;
    if step.Abandon? || Contains(s.sh.slots, step.token) { GiveBackEnds(c, s, slot); }
    SameDelivery(s, Apply(c, s, step));
  }

  lemma QuietSteps(c: Config, s: System, step: Step)
    requires c.Valid() && Offered(c, s, step) && AssertsHold(c, s, step)
    requires !step.Reap? && !step.Publish? && !step.Drain? && !step.DropLease? && !step.Abandon?
    ensures var s' := Apply(c, s, step);
            && s'.hist.ended == s.hist.ended && s'.hist.delivered == s.hist.delivered
            && s'.sh.backlog == s.sh.backlog
  {
  }

  /** A reaped entry, retryable or final. */
  lemma ReapDelivers(c: Config, s: System)
    requires c.Valid() && Offered(c, s, Reap) && AssertsHold(c, s, Reap) && DeliveryOk(s)
    ensures DeliveryOk(Apply(c, s, Reap))
  {
    hide Finish, Deliver, DeliveryOk;
    var slot := s.cq[0].token.slot;
    var e := EntryAt(s.sh.slots, slot);
    match RingProgress(e, s.cq[0].raw, c.retryBound).1
    case Resubmit => SameDelivery(s, Apply(c, s, Reap));
    case Finished(outcome) =>
      FinishEnds(c, s.(cq := s.cq[1..]), slot, outcome);
      DeliverEnds(Finish(c, s.(cq := s.cq[1..]), slot, outcome), CompletionOf(s.cq[0].token, e, outcome), s);
  }

  lemma SameDelivery(s: System, s': System)
    requires DeliveryOk(s) && s'.hist.ended == s.hist.ended && s'.hist.delivered == s.hist.delivered
    requires s'.sh.backlog == s.sh.backlog
    ensures DeliveryOk(s')
  {
  }

  lemma {:induction false} RunDelivers(c: Config, s: System, steps: seq<Step>, t: System)
    requires DeliveryOk(s) && Run(c, s, steps, t)
    ensures DeliveryOk(t)
    decreases |steps|
  {
    hide Apply, AssertsHold, Exhausted, Offered, DeliveryOk;
    if steps != [] {
      StepDelivers(c, s, steps[0]);
      RunDelivers(c, Apply(c, s, steps[0]), steps[1..], t);
    }
  }

  /** Each terminal result has reached a caller once or waits in the backlog once, never both; a point
      operation's exactly when the operation is gone. With the backlog empty, every operation that
      ended had its result delivered. */
  lemma DeliveredOnce(c: Config, s: System, t: OpToken)
    requires Reachable(c, s) && t in s.hist.issued
    ensures Count(s.hist.delivered, EndOf(t)) + Count(s.sh.backlog, EndOf(t)) == s.hist.ended[t] <= 1
    ensures t !in s.hist.scattered ==>
              Count(s.hist.delivered, EndOf(t)) + Count(s.sh.backlog, EndOf(t)) == One(!Contains(s.sh.slots, t))
    ensures s.sh.backlog == [] ==> Count(s.hist.delivered, EndOf(t)) == s.hist.ended[t]
  {
    var steps :| Run(c, Init(c), steps, s);
    RunDelivers(c, Init(c), steps, s);
    ExactlyOnce(c, s, t);
  }
}
