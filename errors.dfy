/** The results and error conditions of CrossColumnMappingTransformer. */
module Errors {

  datatype Option<+T> = None | Some(value: T)

  datatype Result<+T, +E> = Success(value: T) | Failure(error: E)

  /** The Python exception class an error is raised as. */
  datatype ErrorKind = TypeError | ValueError

  const ClassName: string := "CrossColumnMappingTransformer"

  datatype Error =
    | AdjustColumnNotString
    | MappingsNotOrdered
    | AdjustColumnNotInX(column: string)
    | ColumnNotInX(column: string)
  {
    /** Configuration errors are type errors; missing columns are value errors. */
    function Kind(): (k: ErrorKind)
    {
      match this
      case AdjustColumnNotString => TypeError
      case MappingsNotOrdered => TypeError
      case AdjustColumnNotInX(_) => ValueError
      case ColumnNotInX(_) => ValueError
    }

    /** The message text. */
    function Message(): (m: string)
    {
      ClassName + ": " +
      match this
      case AdjustColumnNotString => "adjust_column should be a string"
      case MappingsNotOrdered =>
        "mappings should be an ordered dict for 'replace' mappings using multiple columns"
      case AdjustColumnNotInX(c) => "variable " + c + " is not in X"
      case ColumnNotInX(c) => "variable " + c + " is not in X"
    }
  }

  /** Every message starts with the transformer's class name and a colon. */
  lemma MessagePrefixed(e: Error)
    ensures ClassName + ": " < e.Message()
  {
  }
}
