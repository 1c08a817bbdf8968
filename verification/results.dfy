/** Option and Result types, and the .NET exceptions the adapter's members can raise. */
module Results {

  /** A value or nothing; `None` stands for a C# null where the source returns one. */
  datatype Option<+T> = None | Some(value: T)

  /** The exceptions the adapter throws or lets through, named after their .NET types. */
  datatype Exception =
    | NullReference        // a member of a null reference was used
    | ArgumentOutOfRange   // a List<T> or JArray indexer was given an index outside the list
    | IndexOutOfRange      // the parameter collection's own bounds check failed
    | RuntimeBinder        // a dynamic member access could not be bound
    | Conversion           // ToObject could not convert an array element to the target type
    | InvalidOperation     // a command was executed while its connection was not open
    | Argument             // the parameter collection was given a bad argument or an unknown name
    | FetchFailed          // the query engine failed, or was cancelled, while producing the next row

  /** The outcome of a member that can throw. */
  datatype Result<+T> = Ok(value: T) | Err(error: Exception)
}
