/** The usual optional-value wrapper, used for the fields a payload may leave out. */
module Options {

  datatype Option<+T> = None | Some(value: T)

}
