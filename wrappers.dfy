/** The optional value used wherever the bot's JavaScript may produce `undefined` or `null`. */
module Wrappers {

  datatype Option<+T> = None | Some(value: T)
}
