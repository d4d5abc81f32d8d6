/**
 Multiplication by x^24 or by x^56 moves every element of the field but zero.  A table of
 multiples that was filled one bit off in its byte order therefore never happens to be right.
 */
module Gf128Fixed {
  import opened Polynomials
  import opened Gf128Words

  /** (1 + x^n) v */
  function Spread(n: nat, v: Poly): (r: Poly)
    requires |v| == 128
    ensures |r| == 128
  {
    Add(v, XPow(n, v))
  }

  lemma SpreadTwice(n: nat, v: Poly)
    requires |v| == 128
    ensures Spread(n, Spread(n, v)) == Spread(n + n, v)
  {
    var w, z := XPow(n, v), XPow(n + n, v);
    XPowAdd(n, v, w);
    XPowPlus(n, n, v);
    Middle(v, w, z);
  }

  lemma Middle(u: Poly, v: Poly, w: Poly)
    requires |u| == |v| == |w| == 128
    ensures Add(Add(u, v), Add(v, w)) == Add(u, w)
  {
  }

  /** x^n v == v only for zero. */
  ghost predicate Moves(n: nat) {
    forall v: Poly :: |v| == 128 && Spread(n, v) == Zero(128) ==> v == Zero(128)
  }

  lemma MovesTwice(n: nat)
    requires Moves(n)
    ensures Moves(n + n)
  {
    forall v: Poly | |v| == 128 && Spread(n + n, v) == Zero(128) ensures v == Zero(128) {
      SpreadTwice(n, v);
      assert Spread(n, Spread(n, v)) == Zero(128);
      assert Spread(n, v) == Zero(128);
    }
  }

  /** What x^n v == v says about one coefficient. */
  lemma FixedAt(n: nat, v: Poly, i: nat)
    requires |v| == 128 && 0 < n <= 8 && Spread(n, v) == Zero(128) && i < 128
    ensures v[i] == ((i >= n && v[i - n]) != Spill(v[128 - n..], i))
  {
    XPowCoefficient(n, v, i);
    assert Spread(n, v)[i] == (v[i] != XPow(n, v)[i]);
  }

  lemma {:induction false} FixedPeriod(n: nat, v: Poly, i: nat, k: nat)
    requires |v| == 128 && 0 < n <= 8 && Spread(n, v) == Zero(128)
    requires 7 <= i && i + k * n < 128
    ensures v[i + k * n] == v[i]
    decreases k
  {
    if k > 0 {
      var j := i + k * n;
      assert j - n == i + (k - 1) * n && (k - 1) * n >= 0;
      FixedAt(n, v, j);
      SpillOutside(v[128 - n..], j);
      FixedPeriod(n, v, i, k - 1);
    }
  }

  lemma {:induction false} FixedZero(n: nat, v: Poly, i: nat)
    requires |v| == 128 && 0 < n <= 8 && Spread(n, v) == Zero(128) && v[128 - n..] == Zero(n) && i < 128
    ensures !v[i]
    decreases i
  {
    FixedAt(n, v, i);
    SpillZero(n, i);
    if i >= n { FixedZero(n, v, i - n); }
  }

  lemma AllZero(n: nat, v: Poly)
    requires |v| == 128 && 0 < n <= 8 && Spread(n, v) == Zero(128) && v[128 - n..] == Zero(n)
    ensures v == Zero(128)
  {
    forall i | 0 <= i < 128 ensures !v[i] { FixedZero(n, v, i); }
  }

  lemma Spill3(a: bool, b: bool, c: bool, i: int)
    ensures Spill([a, b, c], i) == ((a && Tap(i)) != ((b && Tap(i - 1)) != (c && Tap(i - 2))))
  {
    assert [a, b, c][1..] == [b, c] && [b, c][1..] == [c] && [c][1..] == [];
    assert Spill([c], i - 2) == (c && Tap(i - 2));
    assert Spill([b, c], i - 1) == ((b && Tap(i - 1)) != Spill([c], i - 2));
  }

  lemma Fixed3(v: Poly, top: seq<bool>, i: nat)
    requires |v| == 128 && Spread(3, v) == Zero(128) && top == v[125..] && i < 128
    ensures v[i] == ((i >= 3 && v[i - 3]) !=
                     ((top[0] && Tap(i)) != ((top[1] && Tap(i - 1)) != (top[2] && Tap(i - 2)))))
  {
    FixedAt(3, v, i);
    assert top == [top[0], top[1], top[2]];
    Spill3(top[0], top[1], top[2], i);
  }

  lemma Moves3()
    ensures Moves(3)
  {
    forall v: Poly | |v| == 128 && Spread(3, v) == Zero(128) ensures v == Zero(128) {
      var top := v[125..];
      FixedPeriod(3, v, 8, 39);
      FixedPeriod(3, v, 9, 39);
      FixedPeriod(3, v, 7, 40);
      Fixed3(v, top, 0); Fixed3(v, top, 1); Fixed3(v, top, 2); Fixed3(v, top, 3); Fixed3(v, top, 4);
      Fixed3(v, top, 5); Fixed3(v, top, 6); Fixed3(v, top, 7); Fixed3(v, top, 8); Fixed3(v, top, 9);
      assert top == Zero(3);
      AllZero(3, v);
    }
  }

  /** The spill of seven bits, for the lowest 14 coefficients. */
  lemma Spill7(h: seq<bool>, i: int)
    requires |h| == 7
    ensures Spill(h, i) == ((h[0] && Tap(i)) != ((h[1] && Tap(i - 1)) != ((h[2] && Tap(i - 2)) !=
                           ((h[3] && Tap(i - 3)) != ((h[4] &&
                             Tap(i - 4)) != ((h[5] && Tap(i - 5)) != (h[6] && Tap(i - 6))))))))
  {
    assert h == [h[0], h[1], h[2]] + h[3..];
    var low, mid, high := [h[0], h[1], h[2]], [h[3], h[4], h[5]], [h[6]];
    assert h == low + (mid + high);
    SpillConcat(low, mid + high, i);
    SpillConcat(mid, high, i - 3);
    Spill3(h[0], h[1], h[2], i);
    Spill3(h[3], h[4], h[5], i - 3);
    assert high[1..] == [];
  }

  lemma Low7(h: seq<bool>, i: nat)
    requires |h| == 7 && i < 7
    ensures Spill(h, i) == (h[i] != ((i >= 1 && h[i - 1]) != (i >= 2 && h[i - 2])))
  {
    Spill7(h, i);
    hide Spill;
    if i == 0 {} else if i == 1 {} else if i == 2 {} else if i == 3 {} else if i == 4 {} else if i == 5 {} else {}
  }

  lemma High7(h: seq<bool>, i: nat)
    requires |h| == 7 && i < 7
    ensures Spill(h, 7 + i) == (h[i] != ((i == 0 && h[6] != h[5]) || (i == 1 && h[6])))
  {
    Spill7(h, 7 + i);
    hide Spill;
    if i == 0 {} else if i == 1 {} else if i == 2 {} else if i == 3 {} else if i == 4 {} else if i == 5 {} else {}
  }

  /** With seven high bits h, coefficient 7 + i is the sum of the two before h[i], in a circle. */
  lemma Fixed7(v: Poly, h: seq<bool>, i: nat)
    requires |v| == 128 && Spread(7, v) == Zero(128) && h == v[121..] && i < 7
    ensures v[7 + i] == ((if i >= 1 then h[i - 1] else h[6]) != (if i >= 2 then h[i - 2] else h[5 + i]))
  {
    FixedAt(7, v, i);
    FixedAt(7, v, 7 + i);
    Low7(h, i);
    High7(h, i);
  }

  /** That coefficient comes round again as h[i - 2]. */
  lemma Round7(v: Poly, h: seq<bool>, i: nat)
    requires |v| == 128 && Spread(7, v) == Zero(128) && h == v[121..] && i < 7
    ensures v[7 + i] == if i >= 2 then h[i - 2] else h[5 + i]
  {
    FixedPeriod(7, v, 7 + i, if i >= 2 then 16 else 17);
  }

  lemma Moves7()
    ensures Moves(7)
  {
    forall v: Poly | |v| == 128 && Spread(7, v) == Zero(128) ensures v == Zero(128) {
      var h := v[121..];
      forall i | 0 <= i < 7 ensures !h[i] {
        var j := if i == 6 then 0 else i + 1;
        Fixed7(v, h, j);
        Round7(v, h, j);
      }
      assert h == Zero(7);
      AllZero(7, v);
    }
  }

  lemma Moves24()
    ensures Moves(24)
  {
    Moves3();
    MovesTwice(3);
    MovesTwice(6);
    MovesTwice(12);
  }

  lemma Moves56()
    ensures Moves(56)
  {
    Moves7();
    MovesTwice(7);
    MovesTwice(14);
    MovesTwice(28);
  }

  /** Nothing but zero stays where it is. */
  lemma NotFixed(n: nat, v: Poly)
    requires |v| == 128 && (n == 24 || n == 56)
    ensures XPow(n, v) == v <==> v == Zero(128)
  {
    if n == 24 { Moves24(); } else { Moves56(); }
    hide XPow;
    if XPow(n, v) == v { assert Spread(n, v) == Zero(128); }
    if v == Zero(128) { XPowZero(n); }
  }

  lemma {:induction false} XPowZero(n: nat)
    ensures XPow(n, Zero(128)) == Zero(128)
  {
    if n > 0 {
      XPowZero(n - 1);
      assert X(Zero(128)) == Zero(128);
    }
  }
}
