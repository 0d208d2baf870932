/** Outcomes of the library's operations. */
module Results {
  datatype Option<+T> = None | Some(value: T)

  /** The exceptions the library throws: `MalformedTokenError`, `InvalidClaimsError`,
      `SignatureError`, and exceptions of the JSON and key libraries that are not of them. */
  datatype Error = Malformed | InvalidClaims | BadSignature | JsonLibrary | BadKey

  datatype Result<+T> = Ok(value: T) | Err(error: Error) {
    predicate IsFailure() {
      Err?
    }

    function PropagateFailure<U>(): Result<U>
      requires Err?
    {
      Err(error)
    }

    function Extract(): T
      requires Ok?
    {
      value
    }
  }
}
