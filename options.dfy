/** The optional value used where the scene code falls back on a default (`??`, `||`). */
module Options {
  datatype Option<+T> = None | Some(value: T)
}
