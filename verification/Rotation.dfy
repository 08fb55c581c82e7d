// Taking turns: what division by the number of participants says about who comes when and how often.
module Rotation {
  lemma {:induction false} MultipleAtLeast(t: int, n: nat)
    ensures t >= 1 ==> t * n >= n
  {
    if t >= 1 {
      assert (t - 1) * n >= 0;
      assert t * n == (t - 1) * n + n;
    }
  }

  // Quotient and remainder are unique.
  lemma {:induction false} SameDivision(n: nat, q: nat, r: nat, x: nat, y: nat)
    requires r < n && y < n && q * n + r == x * n + y
    ensures q == x && r == y
  {
    MultipleAtLeast(x - q, n);
    MultipleAtLeast(q - x, n);
    assert (x - q) * n == x * n - q * n;
    assert (q - x) * n == q * n - x * n;
  }

  lemma {:induction false} DivisionIs(m: nat, n: nat, q: nat, r: nat)
    requires n > 0 && r < n && m == q * n + r
    ensures m / n == q && m % n == r
  {
    assert m == (m / n) * n + m % n;
    SameDivision(n, q, r, m / n, m % n);
  }

  lemma {:induction false} NextTurn(m: nat, n: nat)
    requires n > 0
    ensures if m % n + 1 < n then (m + 1) / n == m / n && (m + 1) % n == m % n + 1
            else (m + 1) / n == m / n + 1 && (m + 1) % n == 0
  {
    var q, r := m / n, m % n;
    assert m == q * n + r;
    if r + 1 < n {
      DivisionIs(m + 1, n, q, r + 1);
    } else {
      assert (q + 1) * n == q * n + n;
      DivisionIs(m + 1, n, q + 1, 0);
    }
  }

  // How often vehicle j of n has had its turn after m routes.
  function Turns(m: nat, n: nat, j: nat): nat
    requires n > 0
  {
    m / n + if j < m % n then 1 else 0
  }

  lemma {:induction false} TurnsNext(m: nat, n: nat, j: nat)
    requires n > 0 && j < n
    ensures Turns(m + 1, n, j) == Turns(m, n, j) + if j == m % n then 1 else 0
  {
    NextTurn(m, n);
  }

  lemma {:induction false} TurnsRepeat(k: nat, n: nat)
    requires n > 0
    ensures k < n ==> k % n == k
    ensures (k + n) % n == k % n
  {
    if k < n {
      DivisionIs(k, n, 0, k);
    }
    assert k == (k / n) * n + k % n;
    assert (k / n + 1) * n == (k / n) * n + n;
    DivisionIs(k + n, n, k / n + 1, k % n);
  }
}
