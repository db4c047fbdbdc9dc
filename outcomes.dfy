/** Option and Result, the two failure-carrying values the model uses for
    Python's `None` and for a call that raises instead of returning. */
module Outcomes {

  datatype Option<+T> = None | Some(value: T)

  /** `Raised` stands for an exception leaving a call; `error` names it. */
  datatype Result<+T> = Ok(value: T) | Raised(error: string)
}
