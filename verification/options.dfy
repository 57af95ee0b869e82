/** Present-or-absent values: the keys a partial update may carry, and the answer of a
    lookup by name. */
module Options {

  datatype Option<T> = None | Some(value: T) {

    /** The carried value when present; `current` when the key was left out. */
    function Or(current: T): T {
      if Some? then value else current
    }
  }
}
