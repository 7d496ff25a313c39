/** The outcome of a call into the symbolic or numeric engine that may raise. */
module Options {

  /** `None` stands for a call that raised; `Some(v)` for one that returned `v`. */
  datatype Option<+T> = None | Some(value: T)
}
