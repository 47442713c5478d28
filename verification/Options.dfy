// The two-way result types the source expresses with nil pointers and (value, ok) pairs.
module Options {
  datatype Option<+T> = None | Some(value: T)
}
