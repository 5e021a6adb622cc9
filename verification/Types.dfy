/** Datatypes shared by the models of the separate source files. */
module Types {
  datatype Option<+T> = None | Some(value: T)
}
