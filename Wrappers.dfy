/** Option and Result values, and the kinds of failure the path layer reports. */
module Wrappers {

  datatype Option<+T> = None | Some(value: T)

  /** The exception kinds the Python code raises, by meaning. */
  datatype Error =
    | InvalidPath       // ValueError: an absolute path is required
    | InvalidArgument   // ValueError: bad URI scheme, open mode, buffering or encoding
    | NotFound          // FileNotFoundError
    | AlreadyExists     // FileExistsError
    | Unsupported       // io.UnsupportedOperation
    | DecodeFailure     // UnicodeDecodeError raised by the text codec
    | ClientError       // a backend ClientException the code lets through
    | NoneDereference   // AttributeError from using a None value
    | MissingHeader     // KeyError on a response header the code indexes
    | RecursionLimit    // RecursionError: the interpreter's call depth is exhausted

  datatype Result<+T> = Ok(value: T) | Err(error: Error)

  /** The map lookup `d.get(k)` of Python dictionaries. */
  function Lookup<K, V>(m: map<K, V>, k: K): (r: Option<V>)
    ensures r.Some? <==> k in m
    ensures r.Some? ==> r.value == m[k]
  {
    if k in m then Some(m[k]) else None
  }
}
