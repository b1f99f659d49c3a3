// Facts of real arithmetic that the averages and back-off bounds rest on.
module Reals {

  function Abs(x: real): real {
    if x < 0.0 then -x else x
  }

  lemma NonNegativeProduct(x: real, y: real)
    requires x >= 0.0 && y >= 0.0
    ensures x * y >= 0.0
  {
  }

  lemma QuotientTimes(x: real, n: real)
    requires n != 0.0
    ensures x / n * n == x
  {
  }

  lemma Distributes(x: real, e: real, n: real)
    ensures (x + e) * n == x * n + e * n
  {
  }

  lemma Triangle(x: real, y: real)
    ensures Abs(x + y) <= Abs(x) + Abs(y)
  {
  }

  lemma SignOfProduct(x: real, n: real)
    requires n > 0.0
    ensures x * n > 0.0 <==> x > 0.0
  {
  }

  lemma CancelFactor(x: real, bound: real, n: real)
    requires n > 0.0 && Abs(x * n) <= bound * n
    ensures Abs(x) <= bound
  {
    Distributes(x, -bound, n);
    Distributes(-x, -bound, n);
    assert -bound * n == -(bound * n) && -x * n == -(x * n);
    SignOfProduct(x - bound, n);
    SignOfProduct(-x - bound, n);
  }
}
