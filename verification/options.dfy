/** The optional value used for the source's nullable fields (`T?` in Kotlin,
    `T | null` in TypeScript). */
module Options {

  datatype Option<+T> = None | Some(value: T) {

    /** Kotlin's `?:` and JavaScript's `??`: the value, or `default` when absent. */
    function GetOr(default: T): T
    {
      match this
      case Some(v) => v
      case None => default
    }
  }
}
