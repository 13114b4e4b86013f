/** The optional-value datatype used for absent JSON keys and for the
    host's "no utterance captured" answer. */
module Wrappers {

  datatype Option<+T> = None | Some(value: T)
}
