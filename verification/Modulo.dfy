/** Remainders by a variable divisor, for indices that advance around a circular array. */
module Modulo {

  lemma SmallMultiple(n: int, k: int)
    requires -n < n * k < n
    ensures k == 0
  {
    assert k >= 1 ==> n * (k - 1) >= 0;
    assert k <= -1 ==> n * (-k - 1) >= 0;
  }

  lemma QuotientMod(q: int, r: int, n: int)
    requires 0 <= r < n
    ensures (n * q + r) % n == r
  {
    var a := n * q + r;
    assert n * (q - a / n) == a % n - r by {
      assert a == n * (a / n) + a % n;
      assert n * (q - a / n) == n * q - n * (a / n);
    }
    SmallMultiple(n, q - a / n);
  }

  lemma ModSucc(x: int, n: int)
    requires n >= 1
    ensures (x % n + 1) % n == (x + 1) % n
  {
    RemainderSucc(x / n, x % n, n);
    assert x == n * (x / n) + x % n;
  }

  lemma RemainderSucc(q: int, r: int, n: int)
    requires 0 <= r < n
    ensures (n * q + r + 1) % n == (r + 1) % n
  {
    if r + 1 == n {
      var m := q + 1;
      assert n * m == n * q + n;
      QuotientMod(m, 0, n);
      QuotientMod(1, 0, n);
    } else {
      QuotientMod(q, r + 1, n);
      QuotientMod(0, r + 1, n);
    }
  }

  // Indices less than n apart fall into different slots.
  lemma DifferentSlots(j: int, w: int, n: int)
    requires n >= 1 && j < w < j + n
    ensures j % n != w % n
  {
    if j % n == w % n {
      assert j == n * (j / n) + j % n;
      assert w == n * (w / n) + w % n;
      assert w - j == n * (w / n - j / n);
      SmallMultiple(n, w / n - j / n);
    }
  }
}
