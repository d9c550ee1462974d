/**
 * The three-state field wrapper used while reading a loosely typed record:
 * a key may be missing, be present with an explicit null, or carry a value.
 * Only the accessor contracts the validator relies on are modelled.
 */
module AbsentNullableField {
  import opened Errors

  datatype AbsentNullable<T> = Absent | Null | Value(value: T) {

    /** `has_value`: true exactly when a real value was given (a null is not one). */
    predicate HasValue() { Value? }

    /** `get`: the field is required; absence and null are both errors. */
    function Get(name: string): (r: Result<T>)
      ensures r.Ok? <==> Value?
      ensures r.Ok? ==> r.value == value
      ensures Absent? ==> r == Err(MissingValue(name))
      ensures Null? ==> r == Err(NullValue(name))
    {
      match this
      case Absent => Err(MissingValue(name))
      case Null => Err(NullValue(name))
      case Value(v) => Ok(v)
    }

    /** `get_non_null`: the field is optional with a default, but may not be null. */
    function GetNonNull(name: string, default: T): (r: Result<T>)
      ensures r.Ok? <==> !Null?
      ensures Absent? ==> r == Ok(default)
      ensures Value? ==> r == Ok(value)
      ensures Null? ==> r == Err(NullValue(name))
    {
      match this
      case Absent => Ok(default)
      case Null => Err(NullValue(name))
      case Value(v) => Ok(v)
    }

    /** `get_non_null_no_default`: optional without a default; null is an error. */
    function GetNonNullNoDefault(name: string): (r: Result<Option<T>>)
      ensures r.Ok? <==> !Null?
      ensures Absent? ==> r == Ok(None)
      ensures Value? ==> r == Ok(Some(value))
      ensures Null? ==> r == Err(NullValue(name))
    {
      match this
      case Absent => Ok(None)
      case Null => Err(NullValue(name))
      case Value(v) => Ok(Some(v))
    }
  }
}
