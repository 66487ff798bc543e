/** One admitted operation as the slab stores it, and the per-CQE progress rule of the ring backend. */
module Ops {
  import opened Types

  datatype FrameLease = Absent | Pool | Raw

  datatype OpState =
    | Queued
    | Active
    | Continuation
    | Terminal(outcome: Outcome)
  {
    /** A held operation keeps its slot while a completion outside the slab owns its read lease. */
    predicate Held() { Continuation? || Terminal? }
  }

  /** `frame` says whether the entry itself owns its read destination; `vector` whether that
      destination is a scatter list whose tail can be continued. */
  datatype Entry = Entry(
    kind: OpKind,
    fd: FileId,
    fileOffset: nat,
    vector: bool,
    frame: bool,
    destinationOffset: nat,
    requestedLen: nat,
    lease: FrameLease,
    writeSlot: Option<nat>,
    retries: nat,
    state: OpState)

  datatype Progress = Resubmit | Finished(outcome: Outcome)

  /** Whether a raw CQE result is a transient to resubmit: EINTR on every kind, EAGAIN on reads. */
  predicate RingShouldRetry(kind: OpKind, raw: int, retries: nat, bound: nat) {
    if raw >= 0 || retries >= bound then false
    else if -raw == EINTR then true
    else if -raw == EAGAIN then kind.Read?
    else false
  }

  function RingResult(raw: int): Outcome {
    if raw < 0 then Err(-raw) else Ok(raw)
  }

  /** The entry after one CQE, and whether the operation is resubmitted or finished. */
  function RingProgress(e: Entry, raw: int, bound: nat): (r: (Entry, Progress))
    requires e.kind.Write? && raw >= 0 ==> raw <= e.requestedLen
  {
    if RingShouldRetry(e.kind, raw, e.retries, bound) then
      (e.(retries := e.retries + 1), Resubmit)
    else if !e.kind.Write? || raw < 0 then
      (e, Finished(RingResult(raw)))
    else if raw == e.requestedLen then
      (e, Finished(Ok(e.destinationOffset + raw)))
    else if raw == 0 then
      if e.retries >= bound then (e, Finished(Err(EIO)))
      else (e.(retries := e.retries + 1), Resubmit)
    else
      (e.(fileOffset := e.fileOffset + raw,
          destinationOffset := e.destinationOffset + raw,
          requestedLen := e.requestedLen - raw), Resubmit)
  }

  /** Work an operation can still absorb: bytes to move, retries left, and the final CQE. */
  function Fuel(e: Entry, bound: nat): (n: nat) {
    e.requestedLen + (if e.retries < bound then bound - e.retries else 0) + 1
  }

  /** What a CQE leaves alone, and that a resubmitted operation has strictly less left to do. */
  lemma RingProgressFrame(e: Entry, raw: int, bound: nat)
    requires e.kind.Write? && raw >= 0 ==> raw <= e.requestedLen
    ensures var (e', p) := RingProgress(e, raw, bound);
            && e'.(fileOffset := e.fileOffset, destinationOffset := e.destinationOffset,
                   requestedLen := e.requestedLen, retries := e.retries) == e
            && e'.destinationOffset + e'.requestedLen == e.destinationOffset + e.requestedLen
            && e'.fileOffset - e'.destinationOffset == e.fileOffset - e.destinationOffset
            && (e.retries <= bound ==> e'.retries <= bound)
            && (p.Resubmit? ==> Fuel(e', bound) < Fuel(e, bound))
            && (p.Finished? ==> e' == e)
  {
  }
}
