/** Small value wrappers shared by every module of the model. */
module Wrappers {

  /** `null` / `undefined` versus a present value. */
  datatype Option<+T> = None | Some(value: T) {
    function GetOr(default: T): T {
      match this
      case Some(v) => v
      case None => default
    }
  }

  /** The completion of a JavaScript computation: it returned a value, or it threw. */
  datatype Completion<+T> = Normal(value: T) | Thrown

  /** JavaScript truthiness of a string: only the empty string is falsy. */
  predicate Truthy(s: string) {
    s != ""
  }

  /** Truthiness of an optional string (`undefined`, `null` and `""` are falsy). */
  predicate TruthyOpt(s: Option<string>) {
    s.Some? && s.value != ""
  }
}
