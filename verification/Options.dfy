// The optional values used throughout the model, for TypeScript's `T | undefined`.
module Options {
  datatype Option<T> = None | Some(value: T) {
    function GetOr(other: T): T
    {
      if None? then other else value
    }

    // COALESCE(this, other)
    function OrElse(other: Option<T>): Option<T>
    {
      if None? then other else this
    }
  }
}
