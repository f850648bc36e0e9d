/** A value that may be absent: a missing header, a null token, a JSON field
    that was not sent. */
module Optional {

  datatype Option<T> = None | Some(value: T)

}
