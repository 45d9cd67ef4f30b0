/** Values shared by every module: optional values, results of operations that may raise,
    and small real arithmetic. */
module Prelude {

  datatype Option<+T> = None | Some(value: T)

  /** `Raised` stands for the exception an operation throws. */
  datatype Result<+T> = Ok(value: T) | Raised(reason: string)

  function Min(a: real, b: real): real { if a <= b then a else b }

  function Max(a: real, b: real): real { if a >= b then a else b }

  function Abs(a: real): real { if a >= 0.0 then a else -a }

  /** Forces `value` into [minimum, maximum], the lower limit winning. */
  function Clamp(value: real, minimum: real, maximum: real): real {
    Max(minimum, Min(value, maximum))
  }
}
