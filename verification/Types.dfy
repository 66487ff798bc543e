/** Vocabulary shared by every part of the driver model. */
module Types {

  datatype Option<+T> = None | Some(value: T)

  /** An operation outcome: a byte count, or the errno the backend surfaced. */
  datatype Outcome = Ok(bytes: nat) | Err(errno: int)

  datatype OpKind = Read | Write | Fsync

  const EINTR: int := 4
  const EIO: int := 5
  const EAGAIN: int := 11
  const U32_MAX: nat := 0xFFFF_FFFF
  const WORD: nat := 0x1_0000_0000

  /** A completion-slab slot plus the generation live when it was filled. */
  datatype OpToken = OpToken(slot: nat, generation: nat) {
    predicate Fits() { slot <= U32_MAX && generation <= U32_MAX }

    /** The 64-bit word a ring request carries: the generation in the high half. */
    function UserData(): (word: nat) { generation * WORD + slot }
  }

  /** Splits a 64-bit word back into the slot and generation it carries. */
  function FromUserData(word: nat): (token: OpToken) {
    OpToken(word % WORD, word / WORD)
  }

  /** Packing loses nothing on 32-bit halves, so an echoed word names one fill of one slot. */
  lemma UserDataRoundTrip(token: OpToken)
    requires token.Fits()
    ensures token.UserData() < WORD * WORD
    ensures FromUserData(token.UserData()) == token
  {
    assert token.UserData() / WORD == token.generation;
  }

  /** An fd-table slot plus the generation minted by the open that returned it. */
  datatype FileId = FileId(slot: nat, generation: nat)
}
