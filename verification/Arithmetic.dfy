/** Division with remainder, in the small steps the other modules need. */
module Arithmetic {
  lemma DivMod(x: nat, m: nat)
    requires m > 0
    ensures x == m * (x / m) + x % m
  {
  }

  lemma {:induction false} LessTimes(i: int, j: int, m: nat)
    ensures i < j ==> m * i + m <= m * j
    decreases j - i
  {
    if i < j {
      assert m * (j - 1) + m == m * j;
      if i < j - 1 { LessTimes(i, j - 1, m); }
    }
  }

  lemma Quotient(x: nat, m: nat, k: nat, r: nat)
    requires m > 0 && r < m && x == m * k + r
    ensures x / m == k && x % m == r
  {
    DivMod(x, m);
    LessTimes(x / m, k, m);
    LessTimes(k, x / m, m);
  }

  lemma MultipleSum(x: nat, y: nat, a: nat)
    requires a > 0 && x % a == 0 && y % a == 0
    ensures (x + y) % a == 0 && (x >= y ==> (x - y) % a == 0)
  {
    var i, j := x / a, y / a;
    DivMod(x, a);
    DivMod(y, a);
    assert a * (i + j) == a * i + a * j;
    Quotient(x + y, a, i + j, 0);
    if x >= y {
      LessTimes(i, j, a);
      assert a * (i - j) == a * i - a * j;
      Quotient(x - y, a, i - j, 0);
    }
  }

  lemma MultipleTimes(k: nat, page: nat, a: nat)
    requires a > 0 && page % a == 0
    ensures (page * k) % a == 0
  {
    var i := page / a;
    DivMod(page, a);
    assert page * k == a * (i * k) by {
      assert page == a * i;
      assert (a * i) * k == a * (i * k);
    }
    Quotient(page * k, a, i * k, 0);
  }

  /** A multiple of a below len, which is rounded down to one. */
  lemma BelowMultiple(x: nat, len: nat, a: nat)
    requires a > 0 && x % a == 0 && x < len
    ensures x <= (len - 1) - (len - 1) % a
  {
    var i, j := x / a, (len - 1) / a;
    DivMod(x, a);
    DivMod(len - 1, a);
    LessTimes(j, i, a);
    LessTimes(i, j, a);
  }

  lemma RoundDown(x: nat, a: nat)
    requires a > 0
    ensures (x - x % a) % a == 0 && 0 <= x % a < a
  {
    DivMod(x, a);
    Quotient(x - x % a, a, x / a, 0);
  }

  /** Taking away one divisor. */
  lemma LessOne(n: nat, m: nat)
    requires m > 0 && n >= m
    ensures (n - m) % m == n % m && (n - m) / m == n / m - 1
  {
    var q, r := (n - m) / m, (n - m) % m;
    DivMod(n - m, m);
    assert m * (q + 1) == m * q + m;
    Quotient(n, m, q + 1, r);
  }

  // ---- the same by counting, for blocks of a size that varies ----

  /** n is a number of m's. */
  predicate Multiple(n: int, m: nat)
    decreases n
  {
    m > 0 && (n == 0 || (n >= m && Multiple(n - m, m)))
  }

  /** The most m's that n has room for. */
  function Whole(n: nat, m: nat): (r: nat)
    requires m > 0
    ensures r <= n < r + m && Multiple(r, m)
    decreases n
  {
    if n < m then 0 else m + Whole(n - m, m)
  }

  lemma {:induction false} MultipleIs(n: nat, m: nat)
    requires m > 0
    ensures Multiple(n, m) <==> n % m == 0
    decreases n
  {
    if n >= m {
      MultipleIs(n - m, m);
      LessOne(n, m);
    } else {
      Quotient(n, m, 0, n);
    }
  }

  lemma {:induction false} MultipleAdd(p: nat, q: nat, m: nat)
    requires Multiple(p, m) && Multiple(q, m)
    ensures Multiple(p + q, m)
    decreases p
  {
    if p > 0 { MultipleAdd(p - m, q, m); }
  }

  lemma {:induction false} WholeUnique(n: nat, m: nat, k: nat)
    requires Multiple(k, m) && k <= n < k + m
    ensures k == Whole(n, m)
    decreases k
  {
    if k > 0 { WholeUnique(n - m, m, k - m); }
  }

  lemma {:induction false} WholeIs(n: nat, m: nat)
    requires m > 0
    ensures Whole(n, m) == n - n % m
    decreases n
  {
    if n >= m {
      WholeIs(n - m, m);
      LessOne(n, m);
    } else {
      Quotient(n, m, 0, n);
    }
  }
}
