/** The "value or nothing" type used for every field of a track that may be
    missing: an elevation, a timestamp, a segment time, the total time. It plays
    the role of Python's `None`. */
module Optional {

  datatype Option<T> = None | Some(value: T)
}
