/** The optional value used wherever a screen keeps a nullable or `undefined` field. */
module Options {

  datatype Option<+T> = None | Some(value: T)
}
