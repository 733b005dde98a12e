/** The structured value of a compose document, as js-yaml loads it. */
module Values {

  /** A YAML node. `Undefined` is the value of a document before anything is merged into it. */
  datatype Value =
    | Undefined
    | Scalar(text: string)
    | Sequence(items: seq<Value>)
    | Mapping(entries: map<string, Value>)

  /** What can go wrong while a source is turned into a value. */
  datatype Error =
    | ReadFailure(path: string)
    | ParseFailure(text: string)

  datatype Option<T> = None | Some(value: T)

  datatype Result<T> = Ok(value: T) | Err(error: Error)
}
