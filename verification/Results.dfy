/** Results of operations that the scripts end with an exception or an absent value. */
module Results {

  datatype Option<+T> = None | Some(value: T)

  /** A raised ValueError, VersionError or ReleaseError is one failure: no caller tells them apart. */
  datatype Result<+T> = Ok(value: T) | Failed {
    predicate IsFailure() {
      Failed?
    }

    function PropagateFailure<U>(): Result<U>
      requires Failed?
    {
      Failed
    }

    function Extract(): T
      requires Ok?
    {
      value
    }
  }
}
