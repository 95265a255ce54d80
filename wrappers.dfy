/** Small value wrappers shared by the model. */
module Wrappers {

  /** An optional value: `None` stands for "nothing produced". */
  datatype Option<+T> = None | Some(value: T)
}
