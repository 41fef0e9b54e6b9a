/** The optional value used where a sampler can come back empty-handed. */
module Wrappers {

  datatype Option<+T> = None | Some(value: T)
}
