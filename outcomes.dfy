/** Values shared by the task model: frame and failure identities, the
    completion cell of a task promise, and what reading that cell yields. */
module Outcomes {

  /** Identity of a coroutine frame, standing for a `std::coroutine_handle<>`. */
  type FrameId = nat

  /** An opaque captured failure, standing for a `std::exception_ptr`. */
  type ExcId = nat

  datatype Option<T> = None | Some(value: T)

  /** The completion cell of `task_promise<T>`: the variant `result_`,
      holding either a produced value (index 0) or a captured failure (index 1). */
  datatype Cell<T> = Value(value: T) | Failure(exc: ExcId)

  /** What reading a completion cell does: return a value or re-raise a failure. */
  datatype Outcome<T> = Returned(value: T) | Raised(exc: ExcId)
}
