/** Dollar amounts.  A NUMERIC(14,8) column holds a whole number of 10^-8 dollar units;
    everything else is an exact real. */
module Money {
  import opened Wrappers

  const UNITS_PER_DOLLAR := 100000000.0

  /** The column value Postgres stores for x: nearest unit, halves away from zero. */
  function ToUnits(x: real): int {
    if x >= 0.0 then (x * UNITS_PER_DOLLAR + 0.5).Floor else -(-x * UNITS_PER_DOLLAR + 0.5).Floor
  }

  function FromUnits(n: int): real {
    n as real / UNITS_PER_DOLLAR
  }

  /** fmt.Sprintf("%f", x) read back as a number: six decimals, halves to even. */
  function Round6(x: real): real {
    var y := x * 1000000.0;
    var f := y.Floor;
    var d := y - f as real;
    (if d < 0.5 || (d == 0.5 && f % 2 == 0) then f else f + 1) as real / 1000000.0
  }

  lemma ToUnitsIsNearest(x: real)
    ensures Abs(x - FromUnits(ToUnits(x))) <= 0.000000005
    ensures x == 0.0 ==> ToUnits(x) == 0
  {
  }

  /** A whole number of units is stored as it is, and halves go away from zero. */
  lemma ToUnitsExactly(n: int)
    ensures ToUnits(FromUnits(n)) == n
    ensures ToUnits((n as real + 0.5) / UNITS_PER_DOLLAR) == if n >= 0 then n + 1 else n
  {
  }

  lemma Round6IsNearest(x: real)
    ensures Abs(Round6(x) - x) <= 0.0000005
  {
  }

  /** What is printed has six decimals, and halves go to the even one. */
  lemma Round6Exactly(n: int)
    ensures Round6(n as real / 1000000.0) == n as real / 1000000.0
    ensures Round6((n as real + 0.5) / 1000000.0) == (if n % 2 == 0 then n else n + 1) as real / 1000000.0
  {
    var y, z := n as real / 1000000.0 * 1000000.0, (n as real + 0.5) / 1000000.0 * 1000000.0;
    assert y == n as real && y.Floor == n;
    assert z == n as real + 0.5 && z.Floor == n;
  }

  lemma Round6HasSixDecimals(x: real) returns (n: int)
    ensures Round6(x) == n as real / 1000000.0
  {
    n := (x * 1000000.0).Floor;
    if Round6(x) != n as real / 1000000.0 {
      n := n + 1;
    }
  }
}
