/** An optional value: a missing file, an absent column, a hash never recorded. */
module Options {
  datatype Option<+T> = None | Some(value: T)
  {
    function UnwrapOr(default: T): T { if Some? then value else default }
  }
}
