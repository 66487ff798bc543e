/** The two retry engines. The eager backend loops over a local context; the ring backend folds
    CQEs into a stored entry. Both are driven by the mock executors' fault queue. */
module Retry {
  import opened Types
  import opened Ops

  datatype Injected = Io(errno: int) | Short(bytes: nat) | Eintr | Eagain

  /** One request handed to the backend. */
  datatype Ask = Ask(fileOffset: nat, sourceOffset: nat, len: nat)

  function AskOf(e: Entry): Ask { Ask(e.fileOffset, e.destinationOffset, e.requestedLen) }

  /** The raw CQE the mock ring posts next: the queued fault, else a clean transfer. */
  function NextRaw(faults: seq<Injected>, clean: nat): int {
    if faults == [] then clean
    else match faults[0]
      case Io(errno) => -errno
      case Short(bytes) => bytes
      case Eintr => -EINTR
      case Eagain => -EAGAIN
  }

  function Rest(faults: seq<Injected>): seq<Injected> {
    if faults == [] then [] else faults[1..]
  }

  /** A fault a backend can report for a request of this length: short counts fit, and an
      interruption or would-block arrives under its own name rather than as a hard failure. */
  predicate FaultFits(fault: Injected, len: nat) {
    match fault
    case Io(errno) => errno > 0 && errno != EINTR && errno != EAGAIN
    case Short(bytes) => bytes <= len
    case Eintr => true
    case Eagain => true
  }

  /** Every fault the operation consumes fits the request outstanding at that point. */
  predicate FaultsFit(e: Entry, bound: nat, faults: seq<Injected>)
    decreases |faults|
  {
    faults != [] ==>
      && FaultFits(faults[0], e.requestedLen)
      && var (e', p) := RingProgress(e, NextRaw(faults, e.requestedLen), bound);
         p.Resubmit? ==> FaultsFit(e', bound, faults[1..])
  }

  /** A complete operation: its outcome, every request made, the bytes each one moved, and the
      faults left over. */
  datatype Execution = Execution(outcome: Outcome, asked: seq<Ask>, acked: seq<nat>, rest: seq<Injected>)

  function Acked(raw: int): nat { if raw >= 0 then raw else 0 }

  /** The ring engine run to the end: one CQE after another folded into the entry. */
  function RingRun(e: Entry, bound: nat, faults: seq<Injected>): (r: Execution)
    requires e.retries <= bound && FaultsFit(e, bound, faults)
    decreases Fuel(e, bound)
  {
    var raw := NextRaw(faults, e.requestedLen);
    var (e', p) := RingProgress(e, raw, bound);
    RingProgressFrame(e, raw, bound);
    match p
    case Finished(outcome) => Execution(outcome, [AskOf(e)], [Acked(raw)], Rest(faults))
    case Resubmit =>
      var r := RingRun(e', bound, Rest(faults));
      Execution(r.outcome, [AskOf(e)] + r.asked, [Acked(raw)] + r.acked, r.rest)
  }

  /** A fresh operation of each kind starts with no retries and at source offset zero. */
  predicate Fresh(e: Entry) {
    && e.retries == 0
    && (e.kind.Write? ==> e.destinationOffset == 0)
    && (e.kind.Fsync? ==> e.requestedLen == 0)
  }

  /** Attempts are bounded: a write of L bytes needs at most L + bound of them. */
  lemma {:induction false} AttemptBound(e: Entry, bound: nat, faults: seq<Injected>)
    requires e.retries <= bound && FaultsFit(e, bound, faults)
    ensures var n := |RingRun(e, bound, faults).asked|;
            && 1 <= n
            && (!e.kind.Write? || e.requestedLen == 0 ==> n <= bound - e.retries + 1)
            && (e.kind.Write? && e.requestedLen > 0 ==> n <= e.requestedLen + bound - e.retries)
    decreases Fuel(e, bound)
  {
    var raw := NextRaw(faults, e.requestedLen);
    var (e', p) := RingProgress(e, raw, bound);
    RingProgressFrame(e, raw, bound);
    if p.Resubmit? { AttemptBound(e', bound, Rest(faults)); }
  }

  function Repeat<T>(x: T, n: nat): (s: seq<T>) { if n == 0 then [] else [x] + Repeat(x, n - 1) }

  /** Once the retries are spent, a write moves one byte at a time. */
  lemma {:induction false} ByteByByte(e: Entry, bound: nat)
    requires e.retries == bound && e.kind.Write? && e.requestedLen > 0
    ensures var faults := Repeat(Short(1), e.requestedLen);
            FaultsFit(e, bound, faults) && |RingRun(e, bound, faults).asked| == e.requestedLen
    decreases e.requestedLen
  {
    var faults := Repeat(Short(1), e.requestedLen);
    assert faults[0] == Short(1) && faults[1..] == Repeat(Short(1), e.requestedLen - 1);
    if e.requestedLen > 1 {
      ByteByByte(RingProgress(e, 1, bound).0, bound);
    }
  }

  lemma OneInterruption(e: Entry, bound: nat, rest: seq<Injected>)
    requires e.retries < bound && FaultsFit(e.(retries := e.retries + 1), bound, rest)
    ensures FaultsFit(e, bound, [Eintr] + rest)
    ensures |RingRun(e, bound, [Eintr] + rest).asked| == 1 + |RingRun(e.(retries := e.retries + 1), bound, rest).asked|
  {
    assert ([Eintr] + rest)[1..] == rest;
  }

  /** Each retry can be spent on an interruption before anything else happens. */
  lemma {:induction false} InterruptedFirst(e: Entry, bound: nat, rest: seq<Injected>)
    requires e.retries <= bound && FaultsFit(e.(retries := bound), bound, rest)
    ensures var faults := Repeat(Eintr, bound - e.retries) + rest;
            && FaultsFit(e, bound, faults)
            && |RingRun(e, bound, faults).asked|
               == bound - e.retries + |RingRun(e.(retries := bound), bound, rest).asked|
    decreases bound - e.retries
  {
    hide FaultsFit, RingRun;
    var faults := Repeat(Eintr, bound - e.retries) + rest;
    if e.retries < bound {
      var faults' := Repeat(Eintr, bound - e.retries - 1) + rest;
      InterruptedFirst(e.(retries := e.retries + 1), bound, rest);
      OneInterruption(e, bound, faults');
      assert faults == [Eintr] + faults';
    } else {
      assert faults == rest && e.(retries := bound) == e;
    }
  }

  /** The bound is met exactly: every retry spent on an interruption, then one byte at a time. */
  lemma AttemptBoundSharp(e: Entry, bound: nat)
    requires e.retries <= bound
    requires e.kind.Write? ==> e.requestedLen > 0
    ensures var faults := Repeat(Eintr, bound - e.retries)
                          + (if e.kind.Write? then Repeat(Short(1), e.requestedLen) else []);
            && FaultsFit(e, bound, faults)
            && |RingRun(e, bound, faults).asked|
               == bound - e.retries + (if e.kind.Write? then e.requestedLen else 1)
  {
    if e.kind.Write? {
      ByteByByte(e.(retries := bound), bound);
      InterruptedFirst(e, bound, Repeat(Short(1), e.requestedLen));
    } else {
      InterruptedFirst(e, bound, []);
    }
  }

  function Sum(s: seq<nat>): nat { if s == [] then 0 else s[0] + Sum(s[1..]) }

  /** Request `k` of a run, against the acknowledgements before it. */
  lemma {:induction false} TailAt(e: Entry, bound: nat, faults: seq<Injected>, k: nat)
    requires e.kind.Write? && e.retries <= bound && FaultsFit(e, bound, faults)
    requires k < |RingRun(e, bound, faults).asked| && k <= |RingRun(e, bound, faults).acked|
    ensures var r := RingRun(e, bound, faults);
            && r.asked[k].sourceOffset == e.destinationOffset + Sum(r.acked[..k])
            && r.asked[k].fileOffset == e.fileOffset + Sum(r.acked[..k])
            && r.asked[k].len == e.requestedLen - Sum(r.acked[..k])
    decreases k
  {
    var raw := NextRaw(faults, e.requestedLen);
    var (e', p) := RingProgress(e, raw, bound);
    RingProgressFrame(e, raw, bound);
    if k > 0 && p.Resubmit? {
      var r, r' := RingRun(e, bound, faults), RingRun(e', bound, Rest(faults));
      assert r.acked[..k][1..] == r'.acked[..k - 1];
      TailAt(e', bound, Rest(faults), k - 1);
    }
  }

  /** Ring write tails tile the buffer: request k starts where the first k acknowledgements end,
      in the source and in the file, and always reaches to the end of the buffer. Success is
      reported exactly when every byte was acknowledged, and then reports the full length. */
  lemma {:induction false} WriteTailsTile(e: Entry, bound: nat, faults: seq<Injected>)
    requires e.kind.Write? && e.retries <= bound && FaultsFit(e, bound, faults)
    ensures var r := RingRun(e, bound, faults);
            && |r.acked| == |r.asked|
            && (forall k | 0 <= k < |r.asked| ::
                  && r.asked[k].sourceOffset == e.destinationOffset + Sum(r.acked[..k])
                  && r.asked[k].fileOffset == e.fileOffset + Sum(r.acked[..k])
                  && r.asked[k].len == e.requestedLen - Sum(r.acked[..k]))
            && Sum(r.acked) <= e.requestedLen
            && (r.outcome.Ok? ==> Sum(r.acked) == e.requestedLen
                                  && r.outcome.bytes == e.destinationOffset + e.requestedLen)
            && (r.outcome.Err? ==> e.requestedLen == 0 || Sum(r.acked) < e.requestedLen)
  {
    WriteTotals(e, bound, faults);
    var r := RingRun(e, bound, faults);
    forall k | 0 <= k < |r.asked|
      ensures && r.asked[k].sourceOffset == e.destinationOffset + Sum(r.acked[..k])
              && r.asked[k].fileOffset == e.fileOffset + Sum(r.acked[..k])
              && r.asked[k].len == e.requestedLen - Sum(r.acked[..k])
    {
      TailAt(e, bound, faults, k);
    }
  }

  lemma {:induction false} WriteTotals(e: Entry, bound: nat, faults: seq<Injected>)
    requires e.kind.Write? && e.retries <= bound && FaultsFit(e, bound, faults)
    ensures var r := RingRun(e, bound, faults);
            && |r.acked| == |r.asked|
            && Sum(r.acked) <= e.requestedLen
            && (r.outcome.Ok? ==> Sum(r.acked) == e.requestedLen
                                  && r.outcome.bytes == e.destinationOffset + e.requestedLen)
            && (r.outcome.Err? ==> e.requestedLen == 0 || Sum(r.acked) < e.requestedLen)
    decreases Fuel(e, bound)
  {
    var raw := NextRaw(faults, e.requestedLen);
    var (e', p) := RingProgress(e, raw, bound);
    RingProgressFrame(e, raw, bound);
    if p.Resubmit? {
      WriteTotals(e', bound, Rest(faults));
      assert RingRun(e, bound, faults).acked[1..] == RingRun(e', bound, Rest(faults)).acked;
    }
  }

  /** No run reports more bytes than its operation asked for at the start. */
  lemma {:induction false} RunOutcomeFits(e: Entry, bound: nat, faults: seq<Injected>)
    requires e.retries <= bound && FaultsFit(e, bound, faults)
    ensures var r := RingRun(e, bound, faults);
            r.outcome.Ok? ==> r.outcome.bytes <= (if e.kind.Write? then e.destinationOffset else 0) + e.requestedLen
    decreases Fuel(e, bound)
  {
    var raw := NextRaw(faults, e.requestedLen);
    var (e', p) := RingProgress(e, raw, bound);
    RingProgressFrame(e, raw, bound);
    if p.Resubmit? { RunOutcomeFits(e', bound, Rest(faults)); }
  }

  // ---------------------------------------------------------------- what a run answers

  /** Whether a fault is worth another attempt: an interruption always, would-block only on a read. */
  predicate Transient(kind: OpKind, fault: Injected) { fault.Eintr? || (fault.Eagain? && kind.Read?) }

  /** How many faults in front are. */
  function Leading(kind: OpKind, faults: seq<Injected>): (n: nat)
    ensures n <= |faults|
  {
    if faults == [] || !Transient(kind, faults[0]) then 0 else 1 + Leading(kind, faults[1..])
  }

  function Verdict(fault: Injected): Outcome {
    match fault
    case Io(errno) => Err(errno)
    case Short(bytes) => Ok(bytes)
    case Eintr => Err(EINTR)
    case Eagain => Err(EAGAIN)
  }

  /** What a read or a barrier with `left` retries comes to: the first fault that is not transient, or
      that the retries do not cover, decides; without one all was transferred. */
  function Decided(kind: OpKind, len: nat, left: nat, faults: seq<Injected>): Outcome {
    var n := Leading(kind, faults);
    if n > left then Verdict(faults[left])
    else if n < |faults| then Verdict(faults[n])
    else Ok(len)
  }

  function AttemptsTaken(kind: OpKind, left: nat, faults: seq<Injected>): nat {
    1 + if Leading(kind, faults) > left then left else Leading(kind, faults)
  }

  /** Reads and barriers, for every sequence of faults: the outcome, the number of attempts, that each
      asks for the whole again, and the faults left over. */
  lemma {:induction false} PlainRunDecided(e: Entry, bound: nat, faults: seq<Injected>)
    requires !e.kind.Write? && e.retries <= bound && FaultsFit(e, bound, faults)
    ensures var r, left := RingRun(e, bound, faults), bound - e.retries;
            && r.outcome == Decided(e.kind, e.requestedLen, left, faults)
            && |r.asked| == AttemptsTaken(e.kind, left, faults)
            && (forall k | 0 <= k < |r.asked| :: r.asked[k] == AskOf(e))
            && r.rest == if |r.asked| <= |faults| then faults[|r.asked|..] else []
    decreases |faults|
  {
    if faults != [] {
      var (e', p) := RingProgress(e, NextRaw(faults, e.requestedLen), bound);
      if p.Resubmit? { PlainRunDecided(e', bound, faults[1..]); }
    }
  }

  /** The bytes a prefix of the faults let through. */
  function Through(faults: seq<Injected>): nat {
    if faults == [] then 0
    else Through(faults[..|faults| - 1]) + if faults[|faults| - 1].Short? then faults[|faults| - 1].bytes else 0
  }

  /** The attempts among them that moved nothing. */
  function Stalls(faults: seq<Injected>): nat {
    if faults == [] then 0
    else
      var last := faults[|faults| - 1];
      Stalls(faults[..|faults| - 1]) + if last.Eintr? || last == Short(0) then 1 else 0
  }

  lemma {:induction false} PrefixSums(fault: Injected, rest: seq<Injected>)
    ensures Through([fault] + rest) == (if fault.Short? then fault.bytes else 0) + Through(rest)
    ensures Stalls([fault] + rest) == (if fault.Eintr? || fault == Short(0) then 1 else 0) + Stalls(rest)
    decreases |rest|
  {
    var all := [fault] + rest;
    if rest == [] {
      assert all[..0] == [] && all[|all| - 1] == fault;
    } else {
      assert all[..|all| - 1] == [fault] + rest[..|rest| - 1] && all[|all| - 1] == rest[|rest| - 1];
      PrefixSums(fault, rest[..|rest| - 1]);
    }
  }

  /** A write that has gone through `k` faults: only interruptions and short counts, its retries cover
      the attempts that moved nothing, and bytes are left, if it had any. */
  ghost predicate GoesOn(len: nat, left: nat, faults: seq<Injected>, k: nat)
    requires k <= |faults|
  {
    && (forall j | 0 <= j < k :: faults[j].Eintr? || faults[j].Short?)
    && Stalls(faults[..k]) <= left && (len > 0 ==> Through(faults[..k]) < len)
  }

  /** What ends it: nothing more in its way, a hard error or would-block, the last bytes, or an attempt
      that moved nothing with no retry left. */
  ghost predicate EndsWith(len: nat, left: nat, whole: nat, faults: seq<Injected>, k: nat, outcome: Outcome)
    requires k <= |faults|
  {
    if k == |faults| then outcome == Ok(whole)
    else match faults[k]
      case Io(errno) => outcome == Err(errno)
      case Eagain => outcome == Err(EAGAIN)
      case Eintr => outcome == Err(EINTR) && Stalls(faults[..k]) == left
      case Short(bytes) =>
        if Through(faults[..k]) + bytes == len then outcome == Ok(whole)
        else bytes == 0 && outcome == Err(EIO) && Stalls(faults[..k]) == left
  }

  /** An attempt that does not end the write, in front of those that follow it. */
  lemma WriteGoesOn(e: Entry, bound: nat, faults: seq<Injected>, k: nat, outcome: Outcome)
    requires e.kind.Write? && e.retries <= bound && faults != [] && FaultFits(faults[0], e.requestedLen) && k < |faults|
    requires var (e', p) := RingProgress(e, NextRaw(faults, e.requestedLen), bound);
             && p.Resubmit? && e'.retries <= bound
             && GoesOn(e'.requestedLen, bound - e'.retries, faults[1..], k)
             && EndsWith(e'.requestedLen, bound - e'.retries, e'.destinationOffset + e'.requestedLen, faults[1..], k,
                         outcome)
    ensures GoesOn(e.requestedLen, bound - e.retries, faults, k + 1)
    ensures EndsWith(e.requestedLen, bound - e.retries, e.destinationOffset + e.requestedLen, faults, k + 1, outcome)
  {
    assert faults[..k + 1] == [faults[0]] + faults[1..][..k];
    PrefixSums(faults[0], faults[1..][..k]);
    hide Through, Stalls;
  }

  lemma WriteStarts(e: Entry, bound: nat, faults: seq<Injected>)
    requires e.kind.Write? && e.retries <= bound && FaultsFit(e, bound, faults)
    ensures GoesOn(e.requestedLen, bound - e.retries, faults, 0)
    ensures var p := RingProgress(e, NextRaw(faults, e.requestedLen), bound).1;
            p.Finished? ==> EndsWith(e.requestedLen, bound - e.retries, e.destinationOffset + e.requestedLen, faults, 0,
                                     p.outcome)
  {
  }

  /** Writes, for every sequence of faults: the run goes on up to the fault that ends it, and comes to
      what that fault says. */
  lemma {:induction false} WriteRunDecided(e: Entry, bound: nat, faults: seq<Injected>)
    requires e.kind.Write? && e.retries <= bound && FaultsFit(e, bound, faults)
    ensures var r := RingRun(e, bound, faults);
            && 1 <= |r.asked| <= |faults| + 1
            && GoesOn(e.requestedLen, bound - e.retries, faults, |r.asked| - 1)
            && EndsWith(e.requestedLen, bound - e.retries, e.destinationOffset + e.requestedLen, faults,
                        |r.asked| - 1, r.outcome)
    decreases |faults|
  {
    hide GoesOn, EndsWith;
    WriteStarts(e, bound, faults);
    if faults != [] {
      var (e', p) := RingProgress(e, NextRaw(faults, e.requestedLen), bound);
      if p.Resubmit? {
        var rest := faults[1..];
        WriteRunDecided(e', bound, rest);
        RingProgressFrame(e, NextRaw(faults, e.requestedLen), bound);
        WriteGoesOn(e, bound, faults, |RingRun(e', bound, rest).asked| - 1, RingRun(e', bound, rest).outcome);
      }
    }
  }
}
