/** The optional value used wherever the bot works with something that may be absent:
    a stored timer, a progress message, a looked-up JSON member. */
module Wrappers {

  datatype Option<+T> = None | Some(value: T)
}
