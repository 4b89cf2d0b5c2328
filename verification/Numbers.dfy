/** Arithmetic that several components share. */
module Numbers {

  /** Math.ceil */
  function Ceil(x: real): (n: int)
    ensures x <= n as real < x + 1.0
  {
    -(-x).Floor
  }

  function AtLeastZero(n: int): nat { if n < 0 then 0 else n }

  lemma Scaled(x: real, y: real, q: real)
    requires x <= y && 0.0 <= q
    ensures x * q <= y * q
  {
  }
}
