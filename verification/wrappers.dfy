/** The result shapes shared by all modules. */
module Wrappers {

  /** A Go pointer, map lookup or optional result: absent or present. */
  datatype Option<+T> = None | Some(value: T) {
    function GetOr(default: T): T {
      if Some? then value else default
    }
  }
}
