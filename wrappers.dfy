/** The optional value used wherever the service may have nothing: a missing file,
    a failed or empty HTTP response, a JSON null. */
module Wrappers {

  datatype Option<+T> = None | Some(value: T)
}
