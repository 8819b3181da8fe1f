/** Values that may be absent: the model's reading of TypeScript's `T | undefined`. */
module Optional {

  datatype Option<T> = Some(value: T) | None {

    /** `x ?? fallback`: the held value, or `fallback` when there is none. */
    function OrElse(fallback: T): T {
      if Some? then value else fallback
    }
  }
}
