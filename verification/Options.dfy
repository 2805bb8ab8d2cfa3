/** The usual optional value: a C pointer that may be NULL, or an answer that may be missing. */
module Options {
  datatype Option<+T> = None | Some(value: T)
}

/** What the C sources share. */
module CTypes {
  /** A void pointer or a code address: only its identity matters. */
  type Ptr = nat

  type Byte = b: int | 0 <= b < 256

  const OK: int := 0
  const ERR: int := -1

  /** The call with which a task hands over: returnA, waitA on an armed descriptor, or errorA. */
  datatype Call = Returned | Waited | Errored
}
