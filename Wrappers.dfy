/** Optional values: `None` stands for JavaScript's `undefined` (a field that was never
    assigned, a description whose creation failed, a null candidate). */
module Wrappers {
  datatype Option<+T> = None | Some(value: T)
}
