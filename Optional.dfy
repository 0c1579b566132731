/** An optional value: the Ruby `nil` versus a present value. */
module Optional {

  datatype Option<+T> = None | Some(value: T)

}
