/** C++ integer arithmetic where it differs from Dafny's. */
module CppInt {

  /** C++ integer division and remainder, which truncate toward zero. */
  function Div(a: int, b: int): int
    requires b != 0
  {
    if a >= 0 then (if b > 0 then a / b else -(a / -b)) else (if b > 0 then -(-a / b) else -a / -b)
  }

  function Mod(a: int, b: int): int
    requires b != 0
  {
    a - b * Div(a, b)
  }

  function Abs(a: int): nat { if a >= 0 then a else -a }

  function Sign(a: int): int { if a > 0 then 1 else if a < 0 then -1 else 0 }
}
