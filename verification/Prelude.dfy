/** Small datatypes shared by every other module. */
module Prelude {
  datatype Option<+T> = None | Some(value: T)

  /** How a call that can throw came back. */
  datatype Outcome = Returned | Threw

  type byte = b: int | 0 <= b < 256

  /** A JavaScript string used as a condition: absent and empty both count as false. */
  predicate Truthy(s: Option<string>) {
    s.Some? && s.value != ""
  }
}
