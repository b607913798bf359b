/** Values shared by every module: optional values and the three ways an
    operation that touches durable state can end. */
module Wrappers {

  datatype Option<+T> = None | Some(value: T)

  function Lookup<K, V>(m: map<K, V>, k: K): Option<V> {
    if k in m then Some(m[k]) else None
  }

  function Elements<T(==)>(s: seq<T>): set<T> {
    set x | x in s
  }

  /** The errors of the persistence layer that the protocols branch on. */
  datatype Error =
    | SourceChanged
    | InterruptedArtifact
    | Collision
    | CandidateWrite
    | ReplaceFailed
    | DurabilityUncertain
    | UnsafeManagedFile
    | ReadError
    | BackupConflict
    | InvalidPlan
    | DuplicateOwnership
    | RecoveryBlocked
    | DuplicateLabel
    | NotConfigured
    | InvalidSchema

  /** How an operation ends: it returns, it raises, or the process dies inside it. */
  datatype Outcome<+T> = Done(value: T) | Raised(error: Error) | Crashed {
    predicate IsFailure() {
      !Done?
    }

    function PropagateFailure<U>(): Outcome<U>
      requires !Done?
    {
      match this
      case Raised(e) => Raised(e)
      case Crashed => Crashed
    }

    function Extract(): T
      requires Done?
    {
      value
    }
  }

  /** What the environment does to one durable operation.  A crash always takes
      effect before the write: a crash after it is a crash before the next one. */
  datatype Fault = Proceed | FailBefore | FailAfter | Crash {
    predicate Reaches() {
      Proceed? || FailAfter?
    }

    function Stop<T>(): (o: Outcome<T>)
      requires !Reaches()
      ensures !o.Done?
    {
      if Crash? then Crashed else Raised(CandidateWrite)
    }

    function Finish<T>(value: T): (o: Outcome<T>)
      requires Reaches()
      ensures !o.Crashed? && (o.Done? ==> o.value == value)
    {
      if Proceed? then Done(value) else Raised(DurabilityUncertain)
    }
  }
}
