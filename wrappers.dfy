/** Option type shared by the tile engine and the map tools. */
module Wrappers {
  datatype Option<+T> = None | Some(value: T)
}
