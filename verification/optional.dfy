/** An optional value: `None` stands for a call that threw instead of returning. */
module Optional {

  datatype Option<+T> = None | Some(value: T)

}
