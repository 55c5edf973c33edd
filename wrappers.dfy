/** The optional value the ingestion model uses for Python's `None`. */
module Wrappers {

  datatype Option<+T> = None | Some(value: T)

}
