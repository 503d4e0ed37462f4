/** The optional value Swift writes `T?`: a failable parse returns `None` where Swift returns `nil`. */
module Options {
  datatype Option<+T> = None | Some(value: T)
}
