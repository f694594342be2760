/** Option and Result values, and the JavaScript faults the compiler can raise. */
module Wrappers {

  datatype Option<+T> = None | Some(value: T)

  datatype Result<+T, +E> = Success(value: T) | Failure(error: E)

  /** The TypeErrors the compiler's own code can throw while it builds a body. */
  datatype TypeError =
    | ToTextNotAFunction   // an evaluator without `toText` met a non-empty literal gap
    | UndefinedHasNoTrim   // `tpl-text` got no `value`, and `undefined.trim()` was called
    | HasOwnPropertyNotAFunction  // an attribute named `hasOwnProperty` hid the method the skip check calls

  /** A possibly-undefined string is truthy: defined and not empty. */
  predicate Truthy(a: Option<string>) {
    a.Some? && a.value != []
  }

  /** JavaScript `a || b` on two possibly-undefined strings: the empty string and
      `undefined` are falsy. */
  function Or(a: Option<string>, b: Option<string>): (r: Option<string>)
  {
    if a.Some? && a.value != [] then a else b
  }

  /** JavaScript `a || d` where `d` is a non-empty string literal. */
  function OrDefault(a: Option<string>, d: string): (r: string)
  {
    if a.Some? && a.value != [] then a.value else d
  }

  /** A template literal `${x}` of a possibly-undefined string. */
  function Interpolate(a: Option<string>): (r: string)
  {
    if a.Some? then a.value else "undefined"
  }
}
