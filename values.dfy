/**
 * The data the cache stores and the outcomes of its operations.
 *
 * `Value` is the pure data the serialiser round-trips: scalars, lists,
 * sets and dictionaries, nested freely.  Because that encoding is
 * lossless, a cache file is modelled as holding the value itself.
 */
module Values {

  datatype Value =
    | VNone
    | VBool(b: bool)
    | VInt(i: int)
    | VStr(s: string)
    | VList(items: seq<Value>)
    | VSet(elems: set<Value>)
    | VDict(entries: map<Value, Value>)

  /** The exceptions the cache operations let escape. */
  datatype Error =
    | KeyError  // a key without any '/'
    | IOError   // the filesystem refused: a file in the way, or a directory opened as a file

  datatype Result<T> = Ok(value: T) | Err(error: Error)

  datatype Option<T> = None | Some(value: T)
}
