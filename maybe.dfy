/** The optional value used wherever Python code may raise a ValueError or return nothing. */
module Maybe {

  datatype Option<T> = None | Some(value: T)
}
