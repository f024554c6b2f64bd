/** Small datatypes shared by every component. */
module Common {

  datatype Option<+T> = None | Some(value: T)

  function Min(a: int, b: int): int { if a <= b then a else b }

  function Max(a: int, b: int): int { if a <= b then b else a }

  /** A cap override may lower the global cap, never raise it. */
  function Clamp(override: Option<int>, globalCap: int): int {
    if override.None? then globalCap else Min(override.value, globalCap)
  }

  lemma Distribute(n: int, k: int, p: int)
    ensures (n + k) * p == n * p + k * p
  {}

  lemma MulMono(x: int, y: int, p: nat)
    ensures x <= y ==> x * p <= y * p
  {}

  const DIGITS := "0123456789"

  /** `str(n)` */
  function Decimal(n: nat): (s: string)
    ensures s != "" && forall c | c in s :: '0' <= c <= '9'
  {
    if n < 10 then [DIGITS[n]] else Decimal(n / 10) + [DIGITS[n % 10]]
  }
}
