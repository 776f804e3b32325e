/** Optional values shared by the model. */
module Wrappers {

  /** A value that may be absent: a missing request field, a lookup that found nothing. */
  datatype Option<+T> = None | Some(value: T)
}
