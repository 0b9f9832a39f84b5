/** An optional value: the model's reading of a TypeScript result that may be `undefined`. */
module Optionals {
  datatype Option<+T> = None | Some(value: T)
}
