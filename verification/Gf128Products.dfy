/**
 Multiplying two blocks: with a 64k table, with a 4k table, and directly.  The table forms
 compute the product in the field for every pair of blocks, in both bit orders.
 */
module Gf128Products {
  import opened Polynomials
  import opened Gf128Words
  import opened Gf128Tables
  import opened Gf128Mul

  /** How far the most significant byte is above the least significant one. */
  const ABOVE: nat := 120

  // ---- one byte ----

  /** The entry that byte i of a selects is g times those eight terms of a. */
  lemma ByteEntry(o: Order, a: Be128, i: nat, n: nat, ps: seq<Be128>, g: Poly, e: Be128, p: Poly)
    requires Valid(a) && i < 16 && n == 8 * i && |g| == 128 && PowersOk(o, ps, g) && p == Poly128(o, a)
    requires e == Entry(ps, Byte(a, MemIndex(o, i)), 8)
    ensures Poly128(o, e) == MulSum(p[n..n + 8], g)
  {
    assert Pow2(8) == 256;
    EntryMeaning(o, ps, Byte(a, MemIndex(o, i)), 8, g);
    ByteCoeffs(o, a, i);
  }

  /** Terms up to n, and the eight that follow. */
  lemma UpFrom(p: Poly, n: nat, g: Poly, so: Poly, more: Poly)
    requires |p| == |g| == 128 && n <= 120 && so == MulSum(p[..n], g) && more == MulSum(p[n..n + 8], XPow(n, g))
    ensures Add(so, more) == MulSum(p[..n + 8], g)
  {
    assert p[..n] + p[n..n + 8] == p[..n + 8];
    MulSumConcat(p[..n], p[n..n + 8], g);
  }

  /** Terms from n + 8 on, and the eight before them. */
  lemma DownFrom(p: Poly, n: nat, g: Poly, so: Poly, more: Poly)
    requires |p| == |g| == 128 && n <= 120 && so == MulSum(p[n + 8..], g) && more == MulSum(p[n..n + 8], g)
    ensures Add(XPow(8, so), more) == MulSum(p[n..], g)
  {
    assert p[n..n + 8] + p[n + 8..] == p[n..];
    MulSumConcat(p[n..n + 8], p[n + 8..], g);
    MulSumXPow(p[n + 8..], 8, g);
    AddLaws(more, XPow(8, so), Zero(128));
  }

  // ---- 64k ----

  /** The first eight terms. */
  lemma FirstTerms(p: Poly, n: nat, v: Poly)
    requires |p| == |v| == 128 && n == 0
    ensures MulSum(p[n..n + 8], XPow(n, v)) == MulSum(p[..n + 8], v)
  {
    assert p[n..n + 8] == p[..n + 8];
  }

  /** What the look-up for byte i adds. */
  lemma RowEntry(o: Order, a: Be128, g: Be128, i: nat, n: nat, e: Be128, p: Poly, v: Poly)
    requires Valid(a) && Valid(g) && i < 16 && n == 8 * i && p == Poly128(o, a) && v == Poly128(o, g)
    requires e == Entry(RowPowers(o, g, i), Byte(a, MemIndex(o, i)), 8)
    ensures Poly128(o, e) == MulSum(p[n..n + 8], XPow(n, v))
  {
    RowPowersOk(o, g, i, v);
    ByteEntry(o, a, i, n, RowPowers(o, g, i), XPow(n, v), e, p);
  }

  lemma NextByte(o: Order, a: Be128, g: Be128, i: nat, n: nat, r: Be128, e: Be128, p: Poly, v: Poly)
    requires Valid(a) && Valid(g) && Valid(r) && i < 16 && n == 8 * i && p == Poly128(o, a) && v == Poly128(o, g)
    requires e == Entry(RowPowers(o, g, i), Byte(a, MemIndex(o, i)), 8) && Poly128(o, r) == MulSum(p[..n], v)
    ensures Poly128(o, BlockXor(r, e)) == MulSum(p[..n + 8], v)
  {
    RowEntry(o, a, g, i, n, e, p, v);
    XorIsAdd(o, r, e);
    UpFrom(p, n, v, Poly128(o, r), Poly128(o, e));
  }

  /** gf128mul_64k_lle and gf128mul_64k_bbe: one look-up for each byte. */
  method Mul64k(o: Order, a: Be128, ghost g: Be128, rows: seq<seq<Be128>>) returns (r: Be128)
    requires Valid(a) && Valid(g) && |rows| == 16
    requires forall i :: 0 <= i < 16 ==> rows[i] == Row(RowPowers(o, g, i))
    ensures Valid(r) && Poly128(o, r) == Mul(Poly128(o, a), Poly128(o, g))
  {
    ghost var p, v, n := Poly128(o, a), Poly128(o, g), 8;
    r := FirstLookUp(o, a, g, rows[0], p, v);
    var i := 1;
    while i < 16
      invariant 1 <= i <= 16 && Valid(r) && n == 8 * i
      invariant Poly128(o, r) == MulSum(p[..n], v)
    {
      r := NextLookUp(o, a, g, rows[i], i, n, r, p, v);
      i := i + 1;
      n := n + 8;
    }
    assert p[..n] == p;
    MulSumIsMul(p, v);
  }

  method FirstLookUp(o: Order, a: Be128, ghost g: Be128, row: seq<Be128>, ghost p: Poly, ghost v: Poly)
    returns (r: Be128)
    requires Valid(a) && Valid(g) && row == Row(RowPowers(o, g, 0)) && p == Poly128(o, a) && v == Poly128(o, g)
    ensures Valid(r) && Poly128(o, r) == MulSum(p[..8], v)
  {
    r := row[Byte(a, MemIndex(o, 0))];
    ghost var n := 0;
    RowEntry(o, a, g, 0, n, r, p, v);
    FirstTerms(p, n, v);
  }

  method NextLookUp(o: Order, a: Be128, ghost g: Be128, row: seq<Be128>, i: nat, ghost n: nat, r: Be128,
                    ghost p: Poly, ghost v: Poly)
    returns (r': Be128)
    requires Valid(a) && Valid(g) && Valid(r) && i < 16 && n == 8 * i && p == Poly128(o, a) && v == Poly128(o, g)
    requires row == Row(RowPowers(o, g, i)) && Poly128(o, r) == MulSum(p[..n], v)
    ensures Valid(r') && Poly128(o, r') == MulSum(p[..n + 8], v)
  {
    var e := row[Byte(a, MemIndex(o, i))];
    NextByte(o, a, g, i, n, r, e, p, v);
    r' := BlockXor(r, e);
  }

  // ---- 4k ----

  lemma LastTerms(p: Poly, n: nat)
    requires |p| == n + 8
    ensures p[n..n + 8] == p[n..]
  {
  }

  lemma OnlyEntry(o: Order, a: Be128, g: Be128, i: nat, n: nat, e: Be128, p: Poly, v: Poly)
    requires Valid(a) && Valid(g) && i < 16 && n == 8 * i && p == Poly128(o, a) && v == Poly128(o, g)
    requires e == Entry(FirstPowers(o, g), Byte(a, MemIndex(o, i)), 8)
    ensures Poly128(o, e) == MulSum(p[n..n + 8], v)
  {
    FirstPowersOk(o, g);
    ByteEntry(o, a, i, n, FirstPowers(o, g), v, e, p);
  }

  lemma LowerByte(o: Order, a: Be128, g: Be128, i: nat, n: nat, r: Be128, e: Be128, p: Poly, v: Poly)
    requires Valid(a) && Valid(g) && Valid(r) && i < 15 && n == 8 * i && p == Poly128(o, a) && v == Poly128(o, g)
    requires e == Entry(FirstPowers(o, g), Byte(a, MemIndex(o, i)), 8) && Poly128(o, r) == MulSum(p[n + 8..], v)
    ensures Poly128(o, BlockXor(TimesX8(o, r), e)) == MulSum(p[n..], v)
  {
    OnlyEntry(o, a, g, i, n, e, p, v);
    TimesX8IsXPow8(o, r);
    XorIsAdd(o, TimesX8(o, r), e);
    DownFrom(p, n, v, Poly128(o, r), Poly128(o, e));
  }

  /** gf128mul_4k_lle and gf128mul_4k_bbe: one table, and a multiplication by x^8 between bytes. */
  method Mul4k(o: Order, a: Be128, ghost g: Be128, t: seq<Be128>) returns (r: Be128)
    requires Valid(a) && Valid(g) && t == Row(FirstPowers(o, g))
    ensures Valid(r) && Poly128(o, r) == Mul(Poly128(o, a), Poly128(o, g))
  {
    ghost var p, v, n := Poly128(o, a), Poly128(o, g), ABOVE;
    var i := 15;
    r := t[Byte(a, MemIndex(o, i))];
    OnlyEntry(o, a, g, i, n, r, p, v);
    LastTerms(p, n);
    while i > 0
      invariant 0 <= i <= 15 && Valid(r) && n == 8 * i
      invariant Poly128(o, r) == MulSum(p[n..], v)
    {
      i := i - 1;
      var e := t[Byte(a, MemIndex(o, i))];
      LowerByte(o, a, g, i, n - 8, r, e, p, v);
      r := BlockXor(TimesX8(o, r), e);
      n := n - 8;
    }
    assert p[n..] == p;
    MulSumIsMul(p, v);
  }

  /** A block is determined by its polynomial, so the two table forms agree. */
  lemma SamePolySameBlock(o: Order, u: Be128, v: Be128)
    requires Valid(u) && Valid(v) && Poly128(o, u) == Poly128(o, v)
    ensures u == v
  {
    var p, q := Poly128(o, u), Poly128(o, v);
    forall i | 0 <= i < 64 ensures u.a[i] == v.a[i] && u.b[i] == v.b[i] {
      assert p[if o.Lle? then 63 - i else 64 + i] == u.a[i] && q[if o.Lle? then 63 - i else 64 + i] == v.a[i];
      assert p[if o.Lle? then 127 - i else i] == u.b[i] && q[if o.Lle? then 127 - i else i] == v.b[i];
    }
  }

  /** Building either table for g and multiplying a by it gives the same block. */
  method TablesAgree(o: Order, a: Be128, g: Be128) returns (r: Be128, r': Be128)
    requires Valid(a) && Valid(g)
    ensures Valid(r) && Poly128(o, r) == Mul(Poly128(o, a), Poly128(o, g))
    ensures r == r'
  {
    var rows := Init64k(o, g);
    r := Mul64k(o, a, g, rows);
    var t := Init4k(o, g);
    r' := Mul4k(o, a, g, t[..]);
    SamePolySameBlock(o, r, r');
  }

  // ---- without a table ----

  /** What memset(r, 0, sizeof(r)) leaves of a block: r is a pointer, of w bytes. */
  function Uncleared(v: Be128, w: nat): (u: Be128)
    requires Valid(v) && w <= 8
    ensures Valid(u)
  {
    Be128(seq(64, i requires 0 <= i < 64 => i < 64 - 8 * w && v.a[i]), v.b)
  }

  lemma XInjective(v: Poly)
    requires |v| == 128 && X(v) == Zero(128)
    ensures v == Zero(128)
  {
    var up := [false] + v;
    assert X(v)[0] == (up[0] != (up[128] && Tap(0)));
    forall i | 0 <= i < 127 ensures !v[i] {
      assert X(v)[i + 1] == (up[i + 1] != (up[128] && Tap(i + 1)));
    }
  }

  lemma {:induction false} XPowInjective(n: nat, v: Poly)
    requires |v| == 128
    ensures XPow(n, v) == Zero(128) <==> v == Zero(128)
  {
    if n > 0 {
      XPowInjective(n - 1, v);
      assert X(Zero(128)) == Zero(128);
      if XPow(n, v) == Zero(128) { XInjective(XPow(n - 1, v)); }
    }
  }

  lemma AddTerm(c: Poly, k: nat, acc: Poly, g: Poly)
    requires |acc| == |g| == 128 && k < |c|
    ensures Add(acc, MulSum(c[..k + 1], g)) == Add(Add(acc, MulSum(c[..k], g)), Times(c[k], XPow(k, g)))
  {
    assert c[..k] + [c[k]] == c[..k + 1];
    MulSumConcat(c[..k], [c[k]], g);
    var w := XPow(k, g);
    assert MulSum([c[k]], w) == Add(Times(c[k], w), MulSum([], X(w)));
    AddLaws(Times(c[k], w), Zero(128), Zero(128));
    AddLaws(acc, MulSum(c[..k], g), Times(c[k], w));
  }

  lemma AddTermBlock(o: Order, r: Be128, q: Be128, c: Poly, k: nat, acc: Poly, g: Poly)
    requires |acc| == |g| == 128 && k < |c|
    requires Means(o, r, Add(acc, MulSum(c[..k], g))) && Means(o, q, XPow(k, g))
    ensures Means(o, if c[k] then BlockXor(r, q) else r, Add(acc, MulSum(c[..k + 1], g)))
  {
    AddTerm(c, k, acc, g);
    XorIsAdd(o, r, q);
    AddLaws(Poly128(o, r), Zero(128), Zero(128));
  }

  /** Block r stands for polynomial q. */
  ghost predicate Means(o: Order, r: Be128, q: Poly) {
    Valid(r) && |q| == 128 && IsPoly(o, r, q)
  }

  ghost predicate IsPoly(o: Order, r: Be128, q: Poly)
    requires Valid(r)
  {
    Poly128(o, r) == q
  }

  /** The eight conditional additions for one byte: bit by bit, the terms of the byte times p. */
  method AddByte(o: Order, r: Be128, ps: seq<Be128>, c: Poly, ghost g: Poly, ghost acc: Poly) returns (r': Be128)
    requires Means(o, r, acc) && |c| == |ps| == 8 && |g| == 128
    requires forall k :: 0 <= k < 8 ==> Means(o, ps[k], XPow(k, g))
    ensures Means(o, r', Add(acc, MulSum(c, g)))
  {
    hide IsPoly;
    r' := r;
    var k := 0;
    NoTerms(o, r, acc, c, g);
    while k < 8
      invariant 0 <= k <= 8 && Means(o, r', Add(acc, MulSum(c[..k], g)))
    {
      AddTermBlock(o, r', ps[k], c, k, acc, g);
      if c[k] { r' := BlockXor(r', ps[k]); }
      k := k + 1;
    }
    assert c[..k] == c;
  }

  lemma NoTerms(o: Order, r: Be128, acc: Poly, c: Poly, g: Poly)
    requires Means(o, r, acc) && |g| == 128
    ensures Means(o, r, Add(acc, MulSum(c[..0], g)))
  {
    AddLaws(acc, Zero(128), Zero(128));
  }

  lemma NextPowerOf(o: Order, q: Be128, k: nat, v: Poly)
    requires |v| == 128 && Means(o, q, XPow(k, v))
    ensures Means(o, TimesX(o, q), XPow(k + 1, v))
  {
    TimesXIsX(o, q);
  }

  /** p[k] = x^k times the block. */
  method PowersOf(o: Order, v: Be128, ghost p: Poly) returns (ps: seq<Be128>)
    requires Means(o, v, p)
    ensures |ps| == 8 && forall k :: 0 <= k < 8 ==> Means(o, ps[k], XPow(k, p))
  {
    hide IsPoly;
    ps := [v];
    var i := 0;
    while i < 7
      invariant 0 <= i <= 7 && |ps| == i + 1
      invariant forall k :: 0 <= k <= i ==> Means(o, ps[k], XPow(k, p))
    {
      NextPowerOf(o, ps[i], i, p);
      ps := ps + [TimesX(o, ps[i])];
      i := i + 1;
    }
  }

  /** Where the loop stands after the byte of terms from n on: what was left over has moved up. */
  function Partial(left: Poly, p: Poly, n: nat, m: nat, v: Poly): (r: Poly)
    requires |left| == |p| == |v| == 128 && n <= 128
    ensures |r| == 128
  {
    Add(XPow(m, left), MulSum(p[n..], v))
  }

  lemma PartialStep(left: Poly, p: Poly, n: nat, m: nat, v: Poly, acc: Poly)
    requires |left| == |p| == |v| == |acc| == 128 && n <= 120
    requires acc == Partial(left, p, n + 8, m, v)
    ensures Add(XPow(8, acc), MulSum(p[n..n + 8], v)) == Partial(left, p, n, m + 8, v)
  {
    var so, more := MulSum(p[n + 8..], v), MulSum(p[n..n + 8], v);
    XPowAdd(8, XPow(m, left), so);
    XPowPlus(8, m, left);
    DownFrom(p, n, v, so, more);
    AddLaws(XPow(m + 8, left), XPow(8, so), more);
  }

  lemma PartialFirst(left: Poly, p: Poly, n: nat, m: nat, v: Poly)
    requires |left| == |p| == |v| == 128 && n == ABOVE && m == 0
    ensures Add(left, MulSum(p[n..n + 8], v)) == Partial(left, p, n, m, v)
  {
    LastTerms(p, n);
  }

  lemma ByteTerms(o: Order, b: Be128, i: nat, n: nat, p: Poly)
    requires Means(o, b, p) && i < 16 && n == 8 * i
    ensures Coeffs(o, Byte(b, MemIndex(o, i))) == p[n..n + 8]
  {
    ByteCoeffs(o, b, i);
  }

  /** Byte i of b: its terms times r are added. */
  method AddByteOf(o: Order, r: Be128, ps: seq<Be128>, b: Be128, i: nat, ghost n: nat, ghost p: Poly, ghost v: Poly,
                   ghost acc: Poly)
    returns (r': Be128)
    requires Means(o, r, acc) && Means(o, b, p) && |ps| == 8 && i < 16 && n == 8 * i && |v| == 128
    requires forall k :: 0 <= k < 8 ==> Means(o, ps[k], XPow(k, v))
    ensures Means(o, r', Add(acc, MulSum(p[n..n + 8], v)))
  {
    hide IsPoly;
    ByteTerms(o, b, i, n, p);
    r' := AddByte(o, r, ps, Coeffs(o, Byte(b, MemIndex(o, i))), v, acc);
  }

  /** The loop over the bytes. */
  method AddBytes(o: Order, left: Be128, ps: seq<Be128>, b: Be128, ghost start: Poly, ghost p: Poly, ghost v: Poly)
    returns (r: Be128)
    requires Means(o, left, start) && Means(o, b, p) && |ps| == 8 && |v| == 128
    requires forall k :: 0 <= k < 8 ==> Means(o, ps[k], XPow(k, v))
    ensures Means(o, r, Partial(start, p, 0, ABOVE, v))
  {
    hide Partial, XPow, IsPoly;
    var i := 15;
    ghost var n, m := ABOVE, 0;
    r := AddByteOf(o, left, ps, b, i, n, p, v, start);
    PartialFirst(start, p, n, m, v);
    while i > 0
      invariant 0 <= i <= 15 && n == 8 * i && m == ABOVE - n && Means(o, r, Partial(start, p, n, m, v))
    {
      i := i - 1;
      n := n - 8;
      r := AddNextByte(o, r, ps, b, i, n, m, start, p, v);
      m := m + 8;
    }
  }

  /** Times x^8, and the next byte. */
  method AddNextByte(o: Order, r: Be128, ps: seq<Be128>, b: Be128, i: nat, ghost n: nat, ghost m: nat,
                     ghost start: Poly, ghost p: Poly, ghost v: Poly) returns (r': Be128)
    requires Means(o, b, p) && |ps| == 8 && i < 15 && n == 8 * i && |start| == |v| == 128
    requires forall k :: 0 <= k < 8 ==> Means(o, ps[k], XPow(k, v))
    requires Means(o, r, Partial(start, p, n + 8, m, v))
    ensures Means(o, r', Partial(start, p, n, m + 8, v))
  {
    hide IsPoly;
    ghost var acc := Partial(start, p, n + 8, m, v);
    PartialStep(start, p, n, m, v, acc);
    ShiftMeans(o, r, acc);
    r' := AddByteOf(o, TimesX8(o, r), ps, b, i, n, p, v, XPow(8, acc));
  }

  lemma ShiftMeans(o: Order, r: Be128, q: Poly)
    requires Means(o, r, q)
    ensures Means(o, TimesX8(o, r), XPow(8, q))
  {
    TimesX8IsXPow8(o, r);
  }

  /** gf128mul_lle and gf128mul_bbe, on a machine with pointers of w bytes. */
  method MulDirect(o: Order, r: Be128, b: Be128, w: nat) returns (r': Be128)
    requires Valid(r) && Valid(b) && w <= 8
    ensures Valid(r')
    ensures Poly128(o, r') == Add(XPow(ABOVE, Poly128(o, Uncleared(r, w))), Mul(Poly128(o, b), Poly128(o, r)))
  {
    ghost var p, v := Poly128(o, b), Poly128(o, r);
    var ps := PowersOf(o, r, v);
    var left := Uncleared(r, w);
    r' := AddBytes(o, left, ps, b, Poly128(o, left), p, v);
    assert p[0..] == p;
    MulSumIsMul(p, v);
  }

  lemma AddSelf(u: Poly, v: Poly)
    requires |u| == |v| == 128
    ensures Add(u, v) == v <==> u == Zero(128)
  {
    forall i | 0 <= i < 128 ensures Add(u, v)[i] == v[i] <==> !u[i] {}
    if Add(u, v) == v {
      forall i | 0 <= i < 128 ensures !u[i] { assert Add(u, v)[i] == v[i]; }
      assert u == Zero(128);
    }
    AddLaws(v, v, v);
  }

  /** The direct form multiplies exactly when the bytes its memset leaves alone are zero. */
  method MulDirectExactlyWhen(o: Order, r: Be128, b: Be128, w: nat) returns (r': Be128)
    requires Valid(r) && Valid(b) && w <= 8
    ensures Valid(r')
    ensures Poly128(o, r') == Mul(Poly128(o, b), Poly128(o, r)) <==> forall k :: w <= k < 16 ==> Byte(r, k) == 0
  {
    r' := MulDirect(o, r, b, w);
    var left := Poly128(o, Uncleared(r, w));
    AddSelf(XPow(ABOVE, left), Mul(Poly128(o, b), Poly128(o, r)));
    XPowInjective(ABOVE, left);
    UnclearedZero(o, r, w);
  }

  /** It goes wrong for 1 (in the byte order bbe) times 0, on every machine. */
  method DirectWrong(o: Order, w: nat) returns (r': Be128)
    requires w <= 8
    ensures var one := Be128(Zero(64), [true] + Zero(63));
            Valid(one) && Valid(r') && Poly128(o, r') != Mul(Poly128(o, ZERO_BLOCK), Poly128(o, one))
  {
    var one := Be128(Zero(64), [true] + Zero(63));
    LastByteSet(one);
    r' := MulDirectExactlyWhen(o, one, ZERO_BLOCK, w);
  }

  lemma LastByteSet(v: Be128)
    requires Valid(v) && v.b[0]
    ensures Byte(v, 15) != 0
  {
    ValOfZero(v.b[0..8]);
    assert v.b[0..8][0];
  }

  lemma {:induction false} ValOfZero(bits: seq<bool>)
    ensures ValOf(bits) == 0 <==> bits == Zero(|bits|)
  {
    if bits != [] {
      ValOfZero(bits[1..]);
      assert bits == [bits[0]] + bits[1..] && Zero(|bits|) == [false] + Zero(|bits| - 1);
      assert bits == Zero(|bits|) ==> bits[0] == false && bits[1..] == Zero(|bits|)[1..];
    }
  }

  lemma ByteZero(v: Be128, k: nat, i: nat)
    requires Valid(v) && k < 16 && i < 8 && Byte(v, k) == 0
    ensures k < 8 ==> !v.a[56 - 8 * k + i]
    ensures k >= 8 ==> !v.b[120 - 8 * k + i]
  {
    ValOfZero(ByteBits(v, k));
    assert !ByteBits(v, k)[i];
  }

  lemma ZeroByte(v: Be128, k: nat)
    requires Valid(v) && k < 16
    requires forall i :: 0 <= i < 8 ==> !ByteBits(v, k)[i]
    ensures Byte(v, k) == 0
  {
    ValOfZero(ByteBits(v, k));
    assert ByteBits(v, k) == Zero(8);
  }

  lemma PolyZero(o: Order, u: Be128)
    requires Valid(u)
    ensures Poly128(o, u) == Zero(128) <==> u == ZERO_BLOCK
  {
    assert Poly128(o, ZERO_BLOCK) == Zero(128);
    if Poly128(o, u) == Zero(128) { SamePolySameBlock(o, u, ZERO_BLOCK); }
  }

  lemma BytesZero(r: Be128, w: nat)
    requires Valid(r) && w <= 8 && Uncleared(r, w) == ZERO_BLOCK
    ensures forall k :: w <= k < 16 ==> Byte(r, k) == 0
  {
    var u := Uncleared(r, w);
    forall k | w <= k < 16 ensures Byte(r, k) == 0 {
      forall i | 0 <= i < 8 ensures !ByteBits(r, k)[i] {
        assert k < 8 ==> !u.a[56 - 8 * k + i];
        assert k >= 8 ==> !u.b[120 - 8 * k + i];
      }
      ZeroByte(r, k);
    }
  }

  lemma ZeroBytes(r: Be128, w: nat)
    requires Valid(r) && w <= 8 && forall k :: w <= k < 16 ==> Byte(r, k) == 0
    ensures Uncleared(r, w) == ZERO_BLOCK
  {
    var u := Uncleared(r, w);
    forall i | 0 <= i < 64 ensures !u.a[i] && !u.b[i] {
      if i < 64 - 8 * w { ByteZero(r, 7 - i / 8, i % 8); }
      ByteZero(r, 15 - i / 8, i % 8);
    }
    assert u.a == Zero(64) && u.b == Zero(64);
  }

  lemma UnclearedZero(o: Order, r: Be128, w: nat)
    requires Valid(r) && w <= 8
    ensures Poly128(o, Uncleared(r, w)) == Zero(128) <==> forall k :: w <= k < 16 ==> Byte(r, k) == 0
  {
    PolyZero(o, Uncleared(r, w));
    if Uncleared(r, w) == ZERO_BLOCK { BytesZero(r, w); }
    if forall k :: w <= k < 16 ==> Byte(r, k) == 0 { ZeroBytes(r, w); }
  }
}
