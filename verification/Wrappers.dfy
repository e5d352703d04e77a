/** What several of the models share. */
module Wrappers {
  datatype Option<+T> = None | Some(value: T)
}

module Powers {
  function Pow2(k: nat): (r: nat)
    ensures r > 0
  {
    if k == 0 then 1 else 2 * Pow2(k - 1)
  }
}

module Modulo {
  lemma MulGrows(m: nat, x: int, y: int)
    requires x <= y
    ensures m * x <= m * y
  {
    assert m * y == m * x + m * (y - x);
  }

  lemma MulNext(m: nat, q: int)
    ensures m * (q + 1) == m * q + m
  {
  }

  lemma DivMod(a: int, m: nat)
    requires m > 0
    ensures a == m * (a / m) + a % m && 0 <= a % m < m
  {
  }

  lemma QuotientUnique(m: nat, q: int, r: int, q2: int, r2: int)
    requires m * q + r == m * q2 + r2 && 0 <= r < m && 0 <= r2 < m
    ensures r == r2
  {
    MulNext(m, q);
    MulNext(m, q2);
    if q < q2 {
      MulGrows(m, q + 1, q2);
    } else if q2 < q {
      MulGrows(m, q2 + 1, q);
    }
  }

  // What is less than m and differs by a multiple of m is the remainder.
  lemma ModUnique(a: int, m: nat, q: int, r: int)
    requires a == m * q + r && 0 <= r < m
    ensures a % m == r
  {
    DivMod(a, m);
    QuotientUnique(m, q, r, a / m, a % m);
  }
}
