/** Shared vocabulary of the pallets: optional values, the outcome of a
    dispatchable call, and the pair (outcome, new state) that the
    value-level models of the mutating operations return. */
module Support {

  datatype Option<T> = None | Some(value: T)

  /** `Result<(), &'static str>`: success carries nothing, failure a reason. */
  datatype DispatchResult = Ok | Err(error: string)

  /** What a state-changing call returns together with the state it leaves behind. */
  datatype Transition<S> = Transition(result: DispatchResult, post: S)
}
