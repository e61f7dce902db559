/** Small wrapper types shared by the modules of the join-ordering model. */
module Util {

  /** An optional value; `None` stands for the source's fatal "panic" outcome
      where a caller can provoke it with ordinary input. */
  datatype Option<T> = None | Some(value: T)

  /** A pass/fail result of an operation that changes state. */
  datatype Outcome<E> = Pass | Fail(error: E)
}
