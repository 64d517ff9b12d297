/** The absent-or-present value used for JSON `null` fields, failed loads
    and failed parses. */
module Optional {
  datatype Option<+T> = None | Some(value: T)
}
