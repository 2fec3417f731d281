/** Optional values: GraphQL nulls and `?.` chains in the UI code that may
    end in `undefined`. */
module Wrappers {

  datatype Option<+T> = None | Some(value: T)
}
