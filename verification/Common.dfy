/** Definitions shared by the models of the individual packages. */
module Common {

  datatype Option<+T> = None | Some(value: T)
}
