/** A value or its absence: SQL's NULL, a missing key, a search that found nothing. */
module Options {
  datatype Option<+T> = None | Some(value: T)
}
