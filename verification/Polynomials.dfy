/**
 Polynomials over the field of two elements, as sequences of coefficients (the coefficient
 of x^i at index i), and arithmetic modulo x^128 + x^7 + x^2 + x + 1.  This is what the
 table-driven multiplications are measured against.
 */
module Polynomials {

  type Poly = seq<bool>

  function Zero(n: nat): Poly {
    seq(n, i => false)
  }

  function Add(u: Poly, v: Poly): (r: Poly)
    requires |u| == |v|
    ensures |r| == |u|
  {
    seq(|u|, i requires 0 <= i < |u| => u[i] != v[i])
  }

  function Times(c: bool, v: Poly): (r: Poly)
    ensures |r| == |v|
  {
    if c then v else Zero(|v|)
  }

  // ---- schoolbook product and long division ----

  /** The product of two polynomials, not reduced. */
  function Product(a: Poly, g: Poly): (r: Poly)
    ensures |r| == |a| + |g|
  {
    if a == [] then Zero(|g|)
    else Add(Times(a[0], g) + Zero(|a|), [false] + Product(a[1..], g))
  }

  /** The low terms of the modulus. */
  predicate Tap(i: int) {
    i == 0 || i == 1 || i == 2 || i == 7
  }

  /** One step of long division: remove the leading coefficient. */
  function Divide(c: Poly): (r: Poly)
    requires |c| > 128
    ensures |r| == |c| - 1
  {
    var n := |c| - 1;
    seq(n, i requires 0 <= i < n => c[i] != (c[n] && Tap(i - (n - 128))))
  }

  /** The remainder modulo x^128 + x^7 + x^2 + x + 1. */
  function Remainder(c: Poly): (r: Poly)
    requires |c| >= 128
    ensures |r| == 128
    decreases |c|
  {
    if |c| == 128 then c else Remainder(Divide(c))
  }

  /** Multiplication in the field of 2^128 elements. */
  function Mul(a: Poly, g: Poly): (r: Poly)
    requires |g| == 128
    ensures |r| == 128
  {
    Remainder(Product(a, g))
  }

  // ---- multiplication by x ----

  function X(v: Poly): (r: Poly)
    requires |v| == 128
    ensures |r| == 128
  {
    Divide([false] + v)
  }

  function XPow(n: nat, v: Poly): (r: Poly)
    requires |v| == 128
    ensures |r| == 128
  {
    if n == 0 then v else X(XPow(n - 1, v))
  }

  /** The sum of the shifts of `v` that `c` selects. */
  function MulSum(c: Poly, v: Poly): (r: Poly)
    requires |v| == 128
    ensures |r| == 128
    decreases |c|
  {
    if c == [] then Zero(128) else Add(Times(c[0], v), MulSum(c[1..], X(v)))
  }

  // ---- addition ----

  lemma AddLaws(u: Poly, v: Poly, w: Poly)
    requires |u| == |v| == |w|
    ensures Add(u, v) == Add(v, u)
    ensures Add(Add(u, v), w) == Add(u, Add(v, w))
    ensures Add(u, Zero(|u|)) == u && Add(Zero(|u|), u) == u
    ensures Add(u, u) == Zero(|u|)
  {
  }

  lemma AddFour(a: Poly, b: Poly, c: Poly, d: Poly)
    requires |a| == |b| == |c| == |d|
    ensures Add(Add(a, b), Add(c, d)) == Add(Add(a, c), Add(b, d))
  {
  }

  lemma TimesAdd(c: bool, d: bool, u: Poly, v: Poly)
    requires |u| == |v|
    ensures Times(c, Add(u, v)) == Add(Times(c, u), Times(c, v))
    ensures Times(c != d, u) == Add(Times(c, u), Times(d, u))
  {
  }

  // ---- long division is linear and commutes with x ----

  lemma DivideAdd(u: Poly, v: Poly)
    requires |u| == |v| > 128
    ensures Divide(Add(u, v)) == Add(Divide(u), Divide(v))
  {
  }

  lemma {:induction false} RemainderAdd(u: Poly, v: Poly)
    requires |u| == |v| >= 128
    ensures Remainder(Add(u, v)) == Add(Remainder(u), Remainder(v))
    decreases |u|
  {
    if |u| > 128 {
      DivideAdd(u, v);
      RemainderAdd(Divide(u), Divide(v));
    }
  }

  lemma DivideShift(c: Poly)
    requires |c| > 128
    ensures Divide([false] + c) == [false] + Divide(c)
  {
    var up := [false] + c;
    var l, r := Divide(up), [false] + Divide(c);
    assert up[|c|] == c[|c| - 1];
    forall i | 0 <= i < |l| ensures l[i] == r[i] {
      assert l[i] == (up[i] != (up[|c|] && Tap(i - (|c| - 128))));
      assert i > 0 ==> up[i] == c[i - 1] && r[i] == Divide(c)[i - 1];
    }
  }

  /** The remainder of x times c is x times the remainder of c. */
  lemma {:induction false} RemainderShift(c: Poly)
    requires |c| >= 128
    ensures Remainder([false] + c) == X(Remainder(c))
    decreases |c|
  {
    if |c| > 128 {
      DivideShift(c);
      RemainderShift(Divide(c));
    }
  }

  lemma {:induction false} RemainderPad(c: Poly, n: nat)
    requires |c| >= 128
    ensures Remainder(c + Zero(n)) == Remainder(c)
    decreases n
  {
    if n == 0 {
      assert c + Zero(0) == c;
    } else {
      assert Divide(c + Zero(n)) == c + Zero(n - 1);
      RemainderPad(c, n - 1);
    }
  }

  lemma XAdd(u: Poly, v: Poly)
    requires |u| == |v| == 128
    ensures X(Add(u, v)) == Add(X(u), X(v))
  {
    assert [false] + Add(u, v) == Add([false] + u, [false] + v);
    DivideAdd([false] + u, [false] + v);
  }

  lemma XTimes(c: bool, v: Poly)
    requires |v| == 128
    ensures X(Times(c, v)) == Times(c, X(v))
  {
    assert X(Zero(128)) == Zero(128);
  }

  lemma {:induction false} XPowAdd(n: nat, u: Poly, v: Poly)
    requires |u| == |v| == 128
    ensures XPow(n, Add(u, v)) == Add(XPow(n, u), XPow(n, v))
  {
    if n > 0 {
      XPowAdd(n - 1, u, v);
      XAdd(XPow(n - 1, u), XPow(n - 1, v));
    }
  }

  lemma {:induction false} XPowPlus(m: nat, n: nat, v: Poly)
    requires |v| == 128
    ensures XPow(m, XPow(n, v)) == XPow(m + n, v)
  {
    if m > 0 { XPowPlus(m - 1, n, v); }
  }

  // ---- sums of shifts ----

  /** The sum of shifts is multiplication in the field. */
  lemma {:induction false} MulSumIsMul(c: Poly, v: Poly)
    requires |v| == 128
    ensures MulSum(c, v) == Mul(c, v)
    decreases |c|
  {
    if c != [] {
      MulSumIsMul(c[1..], v);
      MulSumX(c[1..], v);
      var low, high := Times(c[0], v) + Zero(|c|), [false] + Product(c[1..], v);
      RemainderAdd(low, high);
      RemainderPad(Times(c[0], v), |c|);
      RemainderShift(Product(c[1..], v));
    } else {
      assert Product(c, v) == Zero(128);
    }
  }

  lemma {:induction false} MulSumX(c: Poly, v: Poly)
    requires |v| == 128
    ensures MulSum(c, X(v)) == X(MulSum(c, v))
    decreases |c|
  {
    if c == [] {
      assert X(Zero(128)) == Zero(128);
    } else {
      MulSumX(c[1..], X(v));
      XAdd(Times(c[0], v), MulSum(c[1..], X(v)));
      XTimes(c[0], v);
    }
  }

  lemma {:induction false} MulSumXPow(c: Poly, n: nat, v: Poly)
    requires |v| == 128
    ensures MulSum(c, XPow(n, v)) == XPow(n, MulSum(c, v))
  {
    if n > 0 {
      MulSumXPow(c, n - 1, v);
      MulSumX(c, XPow(n - 1, v));
    }
  }

  lemma {:induction false} MulSumAdd(c: Poly, d: Poly, v: Poly)
    requires |c| == |d| && |v| == 128
    ensures MulSum(Add(c, d), v) == Add(MulSum(c, v), MulSum(d, v))
    decreases |c|
  {
    if c == [] {
      assert Add(c, d) == [];
      AddLaws(Zero(128), Zero(128), Zero(128));
    } else {
      assert Add(c, d)[1..] == Add(c[1..], d[1..]);
      MulSumAdd(c[1..], d[1..], X(v));
      TimesAdd(c[0], d[0], v, v);
      AddFour(Times(c[0], v), Times(d[0], v), MulSum(c[1..], X(v)), MulSum(d[1..], X(v)));
    }
  }

  lemma {:induction false} MulSumConcat(c: Poly, d: Poly, v: Poly)
    requires |v| == 128
    ensures MulSum(c + d, v) == Add(MulSum(c, v), MulSum(d, XPow(|c|, v)))
    decreases |c|
  {
    if c == [] {
      assert c + d == d;
      AddLaws(MulSum(d, v), MulSum(d, v), MulSum(d, v));
    } else {
      assert (c + d)[1..] == c[1..] + d;
      MulSumConcat(c[1..], d, X(v));
      XPowPlus(|c| - 1, 1, v);
      assert XPow(1, v) == X(XPow(0, v));
      AddLaws(Times(c[0], v), MulSum(c[1..], X(v)), MulSum(d, XPow(|c|, v)));
    }
  }

  lemma {:induction false} MulSumZero(n: nat, v: Poly)
    requires |v| == 128
    ensures MulSum(Zero(n), v) == Zero(128)
  {
    if n > 0 {
      assert Zero(n)[1..] == Zero(n - 1);
      MulSumZero(n - 1, X(v));
      AddLaws(Zero(128), Zero(128), Zero(128));
    }
  }
}
