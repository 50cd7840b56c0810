/** The optional-value datatype used for the analyzers' three-valued and absent results. */
module Wrappers {

  datatype Option<+T> = None | Some(value: T)

}
