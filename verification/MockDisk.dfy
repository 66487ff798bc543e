/** The eager engine over the mock executor: the retry loop, the blocking metadata write, and what
    the simulated disk holds afterwards, byte for byte. */
module MockDisk {
  import opened Types
  import opened Ops
  import opened Retry

  newtype Byte = x: int | 0 <= x < 256

  datatype Attempt = Done(bytes: nat) | Failed(errno: int) | Interrupted | WouldBlock

  /** The parameters of one attempt. A write's buffer is the part not yet acknowledged. */
  datatype Context = Context(
    fd: FileId,
    fileOffset: nat,
    destinationOffset: nat,
    requestedLen: nat,
    writeBuf: seq<Byte>)
  {
    predicate Valid(kind: OpKind) {
      && (kind.Write? ==> |writeBuf| == requestedLen)
      && (kind.Fsync? ==> requestedLen == 0)
    }

    /** The tail a short write leaves. */
    function AdvanceWrite(bytes: nat): (tail: Context)
      requires 0 < bytes < requestedLen == |writeBuf|
      ensures tail.Valid(Write) && tail.fd == fd
      ensures tail.destinationOffset + tail.requestedLen == destinationOffset + requestedLen
      ensures tail.fileOffset - fileOffset == tail.destinationOffset - destinationOffset
    {
      Context(fd, fileOffset + bytes, destinationOffset + bytes, requestedLen - bytes, writeBuf[bytes..])
    }
  }

  /** The slab entry the ring backend would store for the same request. */
  function EntryFor(kind: OpKind, context: Context, retries: nat): (e: Entry) {
    Entry(kind, context.fd, context.fileOffset, false, false, context.destinationOffset,
          context.requestedLen, Absent, None, retries, Active)
  }

  function Zeros(n: nat): (z: seq<Byte>) ensures |z| == n { seq(n, _ => 0) }

  /** A file after `data` is stored at `start`, zero-filled up to the write if it was shorter. */
  function Persist(file: seq<Byte>, start: nat, data: seq<Byte>): (r: seq<Byte>) {
    var end := start + |data|;
    var grown := if |file| < end then file + Zeros(end - |file|) else file;
    grown[..start] + data + grown[end..]
  }

  /** Byte for byte: the data in its range, the old contents around it, zeros in any gap. */
  lemma PersistMeaning(file: seq<Byte>, start: nat, data: seq<Byte>)
    ensures var r := Persist(file, start, data);
            && |r| == (if |file| < start + |data| then start + |data| else |file|)
            && forall i | 0 <= i < |r| ::
                 r[i] == if start <= i < start + |data| then data[i - start]
                         else if i < |file| then file[i] else 0
  {
  }

  /** Storing a prefix and then the tail right after it is storing both at once. */
  lemma PersistTwice(file: seq<Byte>, start: nat, a: seq<Byte>, b: seq<Byte>)
    ensures Persist(Persist(file, start, a), start + |a|, b) == Persist(file, start, a + b)
  {
    PersistMeaning(file, start, a);
    PersistMeaning(Persist(file, start, a), start + |a|, b);
    PersistMeaning(file, start, a + b);
  }

  function Bytes(stored: Disk, fd: FileId): (b: seq<Byte>) {
    if fd in stored then stored[fd] else []
  }

  class MockExecutor {
    var injected: seq<Injected>
    var stored: Disk
    ghost var asked: seq<Ask>

    constructor (faults: seq<Injected>)
      ensures injected == faults && stored == map[] && asked == []
    {
      injected, stored, asked := faults, map[], [];
    }

    /** One attempt: the next injected fault, or a clean transfer once they are used up. A write
        that transferred lands on the simulated disk. */
    method Attempt(kind: OpKind, context: Context) returns (attempt: Attempt)
      requires context.Valid(kind)
      requires injected != [] ==> FaultFits(injected[0], context.requestedLen)
      modifies this
      ensures injected == Rest(old(injected))
      ensures asked == old(asked) + [AskOf(EntryFor(kind, context, 0))]
      ensures match attempt
              case Done(bytes) => bytes <= context.requestedLen
                                  && NextRaw(old(injected), context.requestedLen) == bytes
              case Failed(errno) => errno != EINTR && errno != EAGAIN && errno > 0
                                    && NextRaw(old(injected), context.requestedLen) == -errno
              case Interrupted => NextRaw(old(injected), context.requestedLen) == -EINTR
              case WouldBlock => NextRaw(old(injected), context.requestedLen) == -EAGAIN
      ensures stored == if kind.Write? && attempt.Done?
                        then old(stored)[context.fd := Persist(Bytes(old(stored), context.fd),
                                                               context.fileOffset,
                                                               context.writeBuf[..attempt.bytes])]
                        else old(stored)
    {
      asked := asked + [AskOf(EntryFor(kind, context, 0))];
      if injected == [] {
        attempt := Done(context.requestedLen);
      } else {
        match injected[0] {
          case Io(errno) => attempt := Failed(errno);
          case Short(bytes) => attempt := Done(bytes);
          case Eintr => attempt := Interrupted;
          case Eagain => attempt := WouldBlock;
        }
        injected := injected[1..];
      }
      if kind.Write? && attempt.Done? {
        stored := stored[context.fd := Persist(Bytes(stored, context.fd), context.fileOffset,
                                               context.writeBuf[..attempt.bytes])];
      }
    }
  }

  type Disk = map<FileId, seq<Byte>>

  /** What `k` acknowledged bytes of a write leave on disk: exactly that prefix of the buffer in
      its file, every other file alone. With no byte acknowledged the file is untouched, or
      zero-extended up to the offset. */
  ghost predicate Landed(before: Disk, after: Disk, fd: FileId, start: nat, buf: seq<Byte>, k: nat) {
    && k <= |buf|
    && (after == before[fd := Persist(Bytes(before, fd), start, buf[..k])] || (k == 0 && after == before))
  }

  /** The disk after one attempt of a write, seen from the slab entry and the whole buffer. */
  function Store(disk: Disk, e: Entry, raw: int, buf: seq<Byte>): (after: Disk)
    requires e.destinationOffset + e.requestedLen == |buf| && raw <= e.requestedLen
  {
    if raw < 0 then disk
    else disk[e.fd := Persist(Bytes(disk, e.fd), e.fileOffset, buf[e.destinationOffset..][..raw])]
  }

  /** Everything observable after an operation: its outcome, the requests made so far, how much of
      the buffer was acknowledged, the faults left and the disk. */
  datatype Whole = Whole(outcome: Outcome, asked: seq<Ask>, landed: nat, rest: seq<Injected>, disk: Disk)

  /** The ring engine run to the end, accumulating requests and disk contents. */
  function Complete(asked: seq<Ask>, disk: Disk, e: Entry, bound: nat, faults: seq<Injected>,
                    buf: seq<Byte>): (w: Whole)
    requires e.retries <= bound && FaultsFit(e, bound, faults)
    requires e.kind.Write? ==> e.destinationOffset + e.requestedLen == |buf|
    decreases Fuel(e, bound)
  {
    var raw := NextRaw(faults, e.requestedLen);
    var (e', p) := RingProgress(e, raw, bound);
    RingProgressFrame(e, raw, bound);
    var asked' := asked + [AskOf(e)];
    var disk' := if e.kind.Write? then Store(disk, e, raw, buf) else disk;
    match p
    case Finished(outcome) => Whole(outcome, asked', e.destinationOffset + Acked(raw), Rest(faults), disk')
    case Resubmit => Complete(asked', disk', e', bound, Rest(faults), buf)
  }

  /** One unfolding of the run: the operation either ends with this attempt, or goes on with
      strictly less left to do. */
  lemma CompleteStep(asked: seq<Ask>, disk: Disk, e: Entry, bound: nat, faults: seq<Injected>, buf: seq<Byte>)
    requires e.retries <= bound && FaultsFit(e, bound, faults)
    requires e.kind.Write? ==> e.destinationOffset + e.requestedLen == |buf|
    ensures var raw := NextRaw(faults, e.requestedLen);
            var (e', p) := RingProgress(e, raw, bound);
            var w := Complete(asked, disk, e, bound, faults, buf);
            var asked' := asked + [AskOf(e)];
            var disk' := if e.kind.Write? then Store(disk, e, raw, buf) else disk;
            match p
            case Finished(outcome) => w == Whole(outcome, asked', e.destinationOffset + Acked(raw), Rest(faults), disk')
            case Resubmit =>
              && e'.retries <= bound && Fuel(e', bound) < Fuel(e, bound)
              && FaultsFit(e', bound, Rest(faults))
              && (e.kind.Write? ==> e'.destinationOffset + e'.requestedLen == |buf|)
              && w == Complete(asked', disk', e', bound, Rest(faults), buf)
  {
    RingProgressFrame(e, NextRaw(faults, e.requestedLen), bound);
  }

  lemma {:induction false} CompleteIsRun(asked: seq<Ask>, disk: Disk, e: Entry, bound: nat, faults: seq<Injected>,
                                         buf: seq<Byte>)
    requires e.retries <= bound && FaultsFit(e, bound, faults)
    requires e.kind.Write? ==> e.destinationOffset + e.requestedLen == |buf|
    ensures var run := RingRun(e, bound, faults);
            var w := Complete(asked, disk, e, bound, faults, buf);
            && w.outcome == run.outcome && w.asked == asked + run.asked && w.rest == run.rest
            && (e.kind.Write? ==> w.landed == e.destinationOffset + Sum(run.acked))
            && (!e.kind.Write? ==> w.disk == disk)
    decreases Fuel(e, bound)
  {
    var raw := NextRaw(faults, e.requestedLen);
    var (e', p) := RingProgress(e, raw, bound);
    RingProgressFrame(e, raw, bound);
    var run := RingRun(e, bound, faults);
    if p.Resubmit? {
      var disk' := if e.kind.Write? then Store(disk, e, raw, buf) else disk;
      var run' := RingRun(e', bound, Rest(faults));
      assert asked + run.asked == asked + [AskOf(e)] + run'.asked;
      assert run.acked[1..] == run'.acked;
      CompleteIsRun(asked + [AskOf(e)], disk', e', bound, Rest(faults), buf);
    } else {
      assert run.acked[1..] == [];
    }
  }

  /** One more attempt extends the landed prefix by what it acknowledged. */
  lemma LandedGrows(before: Disk, mid: Disk, e: Entry, raw: int, buf: seq<Byte>, start: nat)
    requires e.destinationOffset + e.requestedLen == |buf| && raw <= e.requestedLen
    requires e.fileOffset == start + e.destinationOffset
    requires Landed(before, mid, e.fd, start, buf, e.destinationOffset)
    ensures var after := Store(mid, e, raw, buf);
            && Landed(before, after, e.fd, start, buf, e.destinationOffset + Acked(raw))
            && (raw == e.requestedLen ==> after == before[e.fd := Persist(Bytes(before, e.fd), start, buf)])
  {
    if raw >= 0 {
      var done := e.destinationOffset;
      var data := buf[done..][..raw];
      assert buf[..done] + data == buf[..done + raw];
      PersistTwice(Bytes(before, e.fd), start, buf[..done], data);
      assert done == 0 ==> data == buf[..done + raw];
      assert buf[..|buf|] == buf;
    }
  }

  /** Byte-level write correctness, for every fault sequence that fits: the acknowledged prefix
      and nothing else lands, and on success that prefix is the whole buffer. */
  lemma {:induction false} WriteLands(before: Disk, asked: seq<Ask>, mid: Disk, e: Entry, bound: nat,
                                      faults: seq<Injected>, buf: seq<Byte>, start: nat)
    requires e.kind.Write? && e.retries <= bound && FaultsFit(e, bound, faults)
    requires e.destinationOffset + e.requestedLen == |buf|
    requires e.fileOffset == start + e.destinationOffset
    requires Landed(before, mid, e.fd, start, buf, e.destinationOffset)
    ensures var w := Complete(asked, mid, e, bound, faults, buf);
            && Landed(before, w.disk, e.fd, start, buf, w.landed)
            && (w.outcome.Ok? ==> w.disk == before[e.fd := Persist(Bytes(before, e.fd), start, buf)])
    decreases Fuel(e, bound)
  {
    var raw := NextRaw(faults, e.requestedLen);
    var (e', p) := RingProgress(e, raw, bound);
    RingProgressFrame(e, raw, bound);
    LandedGrows(before, mid, e, raw, buf, start);
    if p.Resubmit? {
      WriteLands(before, asked + [AskOf(e)], Store(mid, e, raw, buf), e', bound, Rest(faults), buf, start);
    }
  }

  /** The eager retry loop. It stops after the same number of attempts as the ring engine, with the
      same outcome and the same requests, and that outcome is what the faults decide; a write leaves
      its acknowledged prefix on disk, and a successful one its whole buffer. */
  method Execute(executor: MockExecutor, kind: OpKind, context: Context, bound: nat)
    returns (outcome: Outcome)
    requires context.Valid(kind) && Fresh(EntryFor(kind, context, 0))
    requires FaultsFit(EntryFor(kind, context, 0), bound, executor.injected)
    modifies executor
    ensures var run := RingRun(EntryFor(kind, context, 0), bound, old(executor.injected));
            && outcome == run.outcome
            && executor.asked == old(executor.asked) + run.asked
            && executor.injected == run.rest
            && (kind.Write? ==> Landed(old(executor.stored), executor.stored, context.fd, context.fileOffset,
                                       context.writeBuf, Sum(run.acked)))
    ensures !kind.Write? ==>
              && executor.stored == old(executor.stored)
              && outcome == Decided(kind, context.requestedLen, bound, old(executor.injected))
    ensures kind.Write? ==>
              var k := |executor.asked| - |old(executor.asked)| - 1;
              && 0 <= k <= |old(executor.injected)| && GoesOn(context.requestedLen, bound, old(executor.injected), k)
              && EndsWith(context.requestedLen, bound, context.requestedLen, old(executor.injected), k, outcome)
    ensures outcome.Ok? ==> outcome.bytes <= context.requestedLen
    ensures kind.Write? && outcome.Ok? ==>
              && outcome.bytes == |context.writeBuf|
              && executor.stored == old(executor.stored)[context.fd :=
                   Persist(Bytes(old(executor.stored), context.fd), context.fileOffset, context.writeBuf)]
  {
    ghost var e0 := EntryFor(kind, context, 0);
    CompleteIsRun(executor.asked, executor.stored, e0, bound, executor.injected, context.writeBuf);
    RunOutcomeFits(e0, bound, executor.injected);
    if kind.Write? {
      WriteTailsTile(e0, bound, executor.injected);
      WriteRunDecided(e0, bound, executor.injected);
      WriteLands(executor.stored, executor.asked, executor.stored, e0, bound, executor.injected,
                 context.writeBuf, context.fileOffset);
    } else {
      PlainRunDecided(e0, bound, executor.injected);
    }
    ghost var whole := Complete(executor.asked, executor.stored, e0, bound, executor.injected, context.writeBuf);
    outcome := ExecuteLoop(executor, kind, context, bound, whole);
  }

  /** The CQE a ring would post for the same attempt. */
  function RawOf(attempt: Attempt): int {
    match attempt
    case Done(bytes) => bytes
    case Failed(errno) => -errno
    case Interrupted => -EINTR
    case WouldBlock => -EAGAIN
  }

  /** Where a run stands: what is left of it, started from the executor's present state, is what
      was left of `whole`. */
  ghost predicate Ahead(whole: Whole, executor: MockExecutor, e: Entry, bound: nat, buf: seq<Byte>)
    reads executor
  {
    && e.retries <= bound && FaultsFit(e, bound, executor.injected)
    && (e.kind.Write? ==> e.destinationOffset + e.requestedLen == |buf|)
    && whole == Complete(executor.asked, executor.stored, e, bound, executor.injected, buf)
  }

  ghost predicate Ended(whole: Whole, executor: MockExecutor, outcome: Outcome)
    reads executor
  {
    && outcome == whole.outcome && executor.asked == whole.asked
    && executor.injected == whole.rest && executor.stored == whole.disk
  }

  /** One attempt of the loop, with its place in the whole run. */
  method ExecuteAttempt(executor: MockExecutor, kind: OpKind, context: Context, ghost retries: nat, ghost bound: nat,
                        ghost buf: seq<Byte>, ghost whole: Whole)
    returns (attempt: Attempt)
    requires context.Valid(kind) && Ahead(whole, executor, EntryFor(kind, context, retries), bound, buf)
    requires kind.Write? ==> context.writeBuf == buf[context.destinationOffset..]
    modifies executor
    ensures attempt.Done? ==> attempt.bytes <= context.requestedLen
    ensures attempt.Failed? ==> attempt.errno > 0 && attempt.errno != EINTR && attempt.errno != EAGAIN
    ensures var e := EntryFor(kind, context, retries);
            var (e', p) := RingProgress(e, RawOf(attempt), bound);
            match p
            case Finished(outcome) => Ended(whole, executor, outcome)
            case Resubmit => Ahead(whole, executor, e', bound, buf) && Fuel(e', bound) < Fuel(e, bound)
  {
    CompleteStep(executor.asked, executor.stored, EntryFor(kind, context, retries), bound, executor.injected, buf);
    attempt := executor.Attempt(kind, context);
  }

  method ExecuteLoop(executor: MockExecutor, kind: OpKind, context: Context, bound: nat, ghost whole: Whole)
    returns (outcome: Outcome)
    requires context.Valid(kind) && Fresh(EntryFor(kind, context, 0))
    requires Ahead(whole, executor, EntryFor(kind, context, 0), bound, context.writeBuf)
    modifies executor
    ensures Ended(whole, executor, outcome)
  {
    hide Ahead, Ended;
    var retryWouldBlock := kind.Read?;
    var retries := 0;
    var logicalLen := context.requestedLen;
    var next := context;
    while true
      invariant next.Valid(kind) && next.fd == context.fd
      invariant kind.Write? ==>
                  && next.destinationOffset <= |context.writeBuf| == logicalLen
                  && next.writeBuf == context.writeBuf[next.destinationOffset..]
      invariant Ahead(whole, executor, EntryFor(kind, next, retries), bound, context.writeBuf)
      decreases Fuel(EntryFor(kind, next, retries), bound)
    {
      var attempt := ExecuteAttempt(executor, kind, next, retries, bound, context.writeBuf, whole);
      match attempt
      case Done(bytes) =>
        assert bytes <= next.requestedLen;
        if !kind.Write? {
          return Ok(bytes);
        }
        if bytes == next.requestedLen {
          return Ok(logicalLen);
        }
        if bytes > 0 {
          next := next.AdvanceWrite(bytes);
        } else if retries >= bound {
          return Err(EIO);
        } else {
          retries := retries + 1;
        }
      case Failed(errno) =>
        return Err(errno);
      case Interrupted =>
        if retries >= bound {
          return Err(EINTR);
        }
        retries := retries + 1;
      case WouldBlock =>
        if !retryWouldBlock || retries >= bound {
          return Err(EAGAIN);
        }
        retries := retries + 1;
    }
  }

  const EBADF: int := 9

  /** The blocking metadata write. Its outer loop never runs twice, so neither of its progress
      asserts can fire; success puts the whole buffer at the offset, and an error, which is that of the
      attempt that failed, exactly the acknowledged prefix. */
  method WriteAllBlocking(executor: MockExecutor, live: bool, fd: FileId, buf: seq<Byte>, offset: nat, bound: nat)
    returns (failure: Option<int>, ghost iterations: nat)
    requires live && buf != [] ==>
               FaultsFit(EntryFor(Write, Context(fd, offset, 0, |buf|, buf), 0), bound, executor.injected)
    modifies executor
    ensures iterations == if live && buf != [] then 1 else 0
    ensures !live ==> failure == Some(EBADF)
    ensures iterations == 0 ==> executor.stored == old(executor.stored) && (live ==> failure.None?)
    ensures iterations == 1 && failure.None? ==>
              executor.stored == old(executor.stored)[fd := Persist(Bytes(old(executor.stored), fd), offset, buf)]
    ensures iterations == 1 ==>
              var run := RingRun(EntryFor(Write, Context(fd, offset, 0, |buf|, buf), 0), bound, old(executor.injected));
              failure == match run.outcome case Ok(_) => None case Err(errno) => Some(errno)
    ensures iterations == 1 && failure.Some? ==>
              exists k | 0 <= k < |buf| :: Landed(old(executor.stored), executor.stored, fd, offset, buf, k)
  {
    iterations := 0;
    var total := |buf|;
    if !live { return Some(EBADF), 0; }
    var written := 0;
    while written < total
      invariant written <= total
      invariant iterations == (if written == 0 then 0 else 1) && (written == 0 || written == total)
      invariant written == 0 ==> executor.stored == old(executor.stored) && executor.injected == old(executor.injected)
      invariant written > 0 ==>
                  && RingRun(EntryFor(Write, Context(fd, offset, 0, |buf|, buf), 0), bound,
                             old(executor.injected)).outcome.Ok?
                  && executor.stored
                     == old(executor.stored)[fd := Persist(Bytes(old(executor.stored), fd), offset, buf)]
    {
      var remaining := total - written;
      assert buf[written..] == buf;
      var context := Context(fd, offset + written, written, |buf[written..]|, buf[written..]);
      ghost var e := EntryFor(Write, context, 0);
      WriteTailsTile(e, bound, executor.injected);
      ghost var k := Sum(RingRun(e, bound, executor.injected).acked);
      iterations := iterations + 1;
      var outcome := Execute(executor, Write, context, bound);
      match outcome
      case Ok(bytes) =>
        assert bytes <= remaining;
        assert bytes > 0;
        written := written + bytes;
      case Err(errno) =>
        assert Landed(old(executor.stored), executor.stored, fd, offset, buf, k);
        return Some(errno), iterations;
    }
    failure := None;
  }
}
