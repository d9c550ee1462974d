/**
 * The structured errors of the generator and the failure-compatible wrappers
 * that carry them; the Rust `?` operator corresponds to `:-`.
 */
module Errors {

  /** The error kinds the modelled code can report. Each carries the identity
      of the offending field, segment or class, never a bare message. */
  datatype SlinkyError =
    | MissingValue(name: string)                          // a required field is absent
    | NullValue(name: string)                             // an explicit null where a value is needed
    | EmptyValue(name: string)                            // a required path is the empty path
    | InvalidFieldCombo(field1: string, field2: string)   // two fields that exclude each other
    | MissingVramClassForSegment(segment: string, vramClass: string)

  datatype Option<+T> = None | Some(value: T)

  datatype Result<+T> = Ok(value: T) | Err(error: SlinkyError) {
    predicate IsFailure() { Err? }

    function PropagateFailure<U>(): Result<U>
      requires Err?
    {
      Err(error)
    }

    function Extract(): T
      requires Ok?
    {
      value
    }
  }

  /** The `Result<(), SlinkyError>` of the emitter's methods. */
  datatype Outcome = Pass | Fail(error: SlinkyError)

  /** The outcome that reports `error`, if there is one. */
  function OutcomeOf(error: Option<SlinkyError>): Outcome {
    if error.Some? then Fail(error.value) else Pass
  }
}
