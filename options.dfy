/** The optional value used where the game answers "no square" or "no token". */
module Options {

  datatype Option<T> = None | Some(value: T)
}
