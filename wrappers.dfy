/** The optional value used for operations that can fail in the source
    (a line `json.loads` rejects, a fetch that raises). */
module Wrappers {

  datatype Option<+T> = None | Some(value: T)
}
