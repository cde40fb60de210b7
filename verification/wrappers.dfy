/** The optional values of the source: a TypeScript field declared with `?`,
    an `undefined` result of a lookup, a `null` entry of a response array. */
module Wrappers {

  datatype Option<+T> = None | Some(value: T) {

    /** The value, or `default` when absent: the source's `x || default`
        for values whose only falsy case is absence. */
    function GetOr(default: T): T {
      match this
      case Some(v) => v
      case None => default
    }
  }
}
