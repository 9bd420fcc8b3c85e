/** The two pieces of `Math` the ledger code leans on, on integers. */
module Numbers {

  /** `Math.max(0, x)`. */
  function Max0(x: int): (r: nat)
    ensures r >= x && (r == x || r == 0)
  {
    if x > 0 then x else 0
  }

  /** `Math.ceil(d / m)`: the least integer `q` with `d <= q * m`. */
  function CeilDiv(d: int, m: nat): (q: int)
    requires m > 0
    ensures m * (q - 1) < d <= m * q
  {
    if d % m == 0 then d / m else d / m + 1
  }
}
