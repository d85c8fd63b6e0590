/** The optional-value datatype used throughout the model, standing for
    "absent" results such as a null stream pointer or a parse that fails. */
module Wrappers {

  datatype Option<+T> = None | Some(value: T)
}
