/** The usual optional value, used wherever the source uses null, -1 or "not found". */
module Optional {
  datatype Option<+T> = None | Some(value: T)
}
