/** The optional-value datatype the rest of the model uses for nullable state
    (`string | null`, a storage lookup that may find nothing). */
module Wrappers {

  datatype Option<+T> = None | Some(value: T)
}
