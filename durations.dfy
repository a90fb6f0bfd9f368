/** Go's fixed-width integers and `time.Duration`, shared by the watcher and the token builder. */
module Durations {
  /** `int64`, and Go's `int` on 64-bit platforms. */
  type Int64 = x: int | -0x8000_0000_0000_0000 <= x < 0x8000_0000_0000_0000

  /** `time.Duration`: a signed 64-bit count of nanoseconds. */
  type Duration = Int64

  const Second: Duration := 1_000_000_000
  const Hour: Duration := 3600 * Second

  /** Go's integer division, which truncates toward zero (Dafny's rounds toward minus
      infinity for a positive divisor). */
  function GoDiv(a: int, b: int): (q: int)
    requires b > 0
    ensures a >= 0 ==> b * q <= a < b * (q + 1)
    ensures a < 0 ==> b * (q - 1) < a <= b * q
    ensures -b < a < b <==> q == 0
  {
    if a >= 0 then DivBounds(a, b); a / b
    else DivBounds(-a, b); -((-a) / b)
  }

  lemma DivBounds(n: nat, b: int)
    requires b > 0
    ensures b * (n / b) <= n < b * (n / b + 1)
    ensures n < b <==> n / b == 0
  {
    var q, r := n / b, n % b;
    assert n == b * q + r && 0 <= r < b;
    assert b * (q + 1) == b * q + b;
    if q > 0 {
      assert b * q >= b by {
        assert b * q == b * (q - 1) + b;
        assert b * (q - 1) >= 0;
      }
    }
  }
}
