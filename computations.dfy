/**
 * The user code that the engine runs is not visible to it: a tracked computation is
 * described by what it does to the engine, namely the tags it reads, in order, and
 * whether it returns a value or throws.
 */
module Computations {
  import opened Wrappers
  import opened Revisions

  datatype Error =
    | CyclicDirty           // 'Cannot dirty tag that has been used during a computation'
    | UserError(code: nat)  // whatever the user's own code throws

  /** How an operation without a result ends: normally, or by throwing. */
  datatype Status = Ok | Failed(error: Error)

  /** How one invocation of a user function ends. */
  datatype Outcome<+V> = Returns(value: V) | Throws(error: Error)

  /** One invocation of a tracked user function: the tags it consumes, in order, and its end. */
  datatype Run<+V> = Run(consumed: seq<TagId>, outcome: Outcome<V>)

  /** What a memoized wrapper hands back: a value (None is `undefined`) or the error it rethrows. */
  datatype Reply<+V> = Value(value: Option<V>) | Raised(error: Error)
}
