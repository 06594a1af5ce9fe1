/** The optional values that the source writes as None, NONE or null. */
module Options {
  datatype Option<+T> = None | Some(value: T) {
    /** The source's `a ?? b`: the value when there is one. */
    function Or(fallback: T): T {
      if Some? then value else fallback
    }
  }
}
