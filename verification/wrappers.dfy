/** The optional-value datatype used across the model: a missing HTTP
    `Origin`, a failed upstream call, a search that found nothing. */
module Wrappers {

  datatype Option<+T> = None | Some(value: T)
}
