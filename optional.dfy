/** The absent-or-present value that stands for JavaScript's `null`/`undefined` results. */
module Optional {
  datatype Option<+T> = None | Some(value: T)
  {
    function GetOr(default: T): T
    {
      match this
      case Some(v) => v
      case None => default
    }
  }
}
