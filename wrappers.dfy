/** Small value types shared by every module of the model. */
module Wrappers {

  /** JavaScript's `T | undefined` (and, where the source says so, `T | null`). */
  datatype Option<+T> = None | Some(value: T)

  /** The outcome of an awaited call into a collaborator that is not modelled
      (the database, the password hasher, the JWT library): it either returns
      a value or throws. */
  datatype Call<+T> = Returned(value: T) | Threw

  /** An octet, as held by a Node `Buffer`. */
  newtype byte = x: int | 0 <= x < 256
}
