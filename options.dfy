/** An optional value, used for references the source leaves null and for settings a variant does not define. */
module Options {

  datatype Option<+T> = None | Some(value: T)
}
