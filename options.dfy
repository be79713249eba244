/** Ruby's `nil` next to a present value: the optional fields of a CSV row,
    of a JSON model and the results of lookups that may find nothing. */
module Options {
  datatype Option<+T> = None | Some(value: T)
}
