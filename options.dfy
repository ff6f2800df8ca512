/** The optional value used for the monitor's nullable references. */
module Options {

  datatype Option<+T> = None | Some(value: T)
}
