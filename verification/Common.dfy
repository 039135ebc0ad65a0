/** Small types shared by the other modules. */
module Common {
  datatype Option<+T> = None | Some(value: T)

  datatype Result<+T, +E> = Ok(value: T) | Err(error: E)

  /** How far a request's timestamp may lie from now, and how long its signature is remembered (src/crypto.rs). */
  const MAX_TIMESTAMP_SKEW_SECS := 300

  function GetOr<T>(o: Option<T>, default: T): T { if o.Some? then o.value else default }

  lemma FactorLess(a: int, b: int, m: nat)
    requires m > 0 && a * m > b * m
    ensures a > b
  {
  }
}
