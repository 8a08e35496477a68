/** Multiplication and division facts for the recovery planner and the packed layout. */
module Arithmetic {

  lemma MulLe(a: nat, b: nat, n: nat)
    requires a <= b
    ensures a * n <= b * n
  {
    assert b * n == a * n + (b - a) * n;
  }

  lemma NextMultiple(a: nat, b: nat, n: nat)
    requires a < b
    ensures a * n + n <= b * n
  {
    MulLe(a + 1, b, n);
  }

  lemma Divided(x: nat, n: nat)
    requires n > 0
    ensures x == (x / n) * n + x % n && 0 <= x % n < n
  {
  }

  lemma DivideBy(x: int, n: nat, q: int, r: int)
    requires n > 0 && 0 <= r < n && x == q * n + r
    ensures x / n == q && x % n == r
  {
    var d := x / n - q;
    assert d * n == r - x % n by {
      assert x == (x / n) * n + x % n;
      assert (x / n) * n - q * n == d * n;
    }
    Outgrows(d, n);
  }

  lemma Outgrows(d: int, n: int)
    requires n >= 0
    ensures d >= 1 ==> d * n >= n
    ensures d <= -1 ==> d * n <= -n
  {
    if d >= 1 {
      assert d * n == (d - 1) * n + n;
    } else if d <= -1 {
      assert d * n == (d + 1) * n - n;
    }
  }

  lemma Quotient(y: nat, n: nat, w: nat)
    requires y < n * w
    ensures w > 0 && y / w < n
  {
    assert w == 0 ==> n * w == 0;
    Divided(y, w);
    if y / w >= n {
      MulLe(n, y / w, w);
    }
  }

  lemma Wrap(a: nat, n: nat)
    requires a < 2 * n
    ensures a % n == if a < n then a else a - n
  {
    if a < n {
      DivideBy(a, n, 0, a);
    } else {
      DivideBy(a, n, 1, a - n);
    }
  }
}
