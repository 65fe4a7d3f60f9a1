/** Python's `None`-or-value, used for optional XML text and optional arguments. */
module Maybe {
  datatype Option<+T> = None | Some(value: T)
}
