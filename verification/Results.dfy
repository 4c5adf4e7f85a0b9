/** Outcomes: the errors that the generated decoders return, and the answers to calls. */
module Results {

  datatype Option<+T> = None | Some(value: T)

  datatype Error =
    | IntOverflow            // a varint of more than ten bytes
    | UnexpectedEOF
    | InvalidLength          // a negative length, or an index that wrapped
    | EndGroupForNonGroup    // wire type 4 where a field starts
    | IllegalTag             // field number not positive
    | WrongWireType
    | UnexpectedEndOfGroup   // end group at depth zero inside the skipper
    | IllegalWireType        // wire types 6 and 7

  /** The answer to a call to Vault or the API server. `Lost`: carried out, but reported as an
      error. */
  datatype CallResult = Done | Failed | Lost

  datatype Result<+T> = Ok(value: T) | Err(error: Error) {
    predicate IsFailure() {
      Err?
    }

    function PropagateFailure<U>(): Result<U>
      requires Err?
    {
      Err(error)
    }

    function Extract(): T
      requires Ok?
    {
      value
    }
  }
}
