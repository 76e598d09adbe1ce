/** Integer arithmetic as the C++ source performs it. Dafny's `/` is Euclidean;
    C++ `/` on `int` truncates toward zero, which differs for negative dividends. */
module CInt {

  /** C++ integer division by a positive divisor: the quotient truncated toward zero,
      so `q*b` never lies beyond `a` on the far side of zero. */
  function TruncDiv(a: int, b: int): (q: int)
    requires b > 0
    ensures a >= 0 ==> q == a / b
    ensures a >= 0 ==> q * b <= a < q * b + b
    ensures a < 0 ==> q * b - b < a <= q * b
  {
    if a >= 0 then a / b else -((-a) / b)
  }

  /** `max(n, 0)`: the number of iterations of `for (i = 0; i < n; i++)`. */
  function Count(n: int): (c: nat)
    ensures c == 0 <==> n <= 0
    ensures n >= 0 ==> c == n
  {
    if n > 0 then n else 0
  }
}
