/** Data types shared by the modules of this project. */
module Common {
  /** A value that may be absent: the source's `null`, `undefined` or missing property. */
  datatype Option<+T> = None | Some(value: T)

  /** What an awaited call of the source gives back: a value, or an exception. */
  datatype Reply<+T> = Answer(value: T) | Threw

  function Min(a: int, b: int): int { if a <= b then a else b }

  function Max(a: int, b: int): int { if a >= b then a else b }

  function CeilDiv(a: int, b: int): (q: int)
    requires b > 0
    ensures (q - 1) * b < a <= q * b
  {
    -((-a) / b)
  }

  function Pow2(n: nat): (r: nat)
    ensures r >= 1
  {
    if n == 0 then 1 else 2 * Pow2(n - 1)
  }
}
