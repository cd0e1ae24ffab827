/** The optional value used wherever the game may or may not produce something in a tick. */
module Options {

  datatype Option<+T> = None | Some(value: T)
}
