/** An optional value, used where the engine reports "nothing found". */
module Options {

  datatype Option<T> = None | Some(value: T)
}
