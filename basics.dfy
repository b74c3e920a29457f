/** Small definitions shared by the components: an optional value (a callback argument that may be
    absent, a nullable id) and the absolute value `Math.abs`. */
module Basics {

  datatype Option<T> = None | Some(value: T)

  /** `Math.abs` on integer offsets. */
  function Abs(x: int): (r: int)
    ensures r >= 0 && (r == x || r == -x)
  {
    if x < 0 then -x else x
  }
}
