/**
 Table-driven multiplication in the field of 2^128 elements: a 64k table (one row of 256
 entries for each byte) or a 4k table (one row), in both bit orders.
 */
module Gf128Tables {
  import opened Polynomials
  import opened Gf128Words

  // ---- bytes of a block ----

  function ValOf(bits: seq<bool>): (n: nat) {
    if bits == [] then 0 else (if bits[0] then 1 else 0) + 2 * ValOf(bits[1..])
  }

  lemma {:induction false} ValOfBits(bits: seq<bool>)
    ensures BitsOf(ValOf(bits), |bits|) == bits && ValOf(bits) < Pow2(|bits|)
  {
    if bits != [] { ValOfBits(bits[1..]); }
  }

  /** Byte k of a block in memory, its bits least significant first. */
  function ByteBits(v: Be128, k: nat): (r: seq<bool>)
    requires Valid(v) && k < 16
    ensures |r| == 8
  {
    if k < 8 then v.a[56 - 8 * k..64 - 8 * k] else v.b[120 - 8 * k..128 - 8 * k]
  }

  function Byte(v: Be128, k: nat): (n: nat)
    requires Valid(v) && k < 16
    ensures n < 256
  {
    ValOfBits(ByteBits(v, k));
    assert Pow2(8) == 256;
    ValOf(ByteBits(v, k))
  }

  /** The byte of memory that holds the coefficients of x^8i to x^(8i+7). */
  function MemIndex(o: Order, i: nat): (k: nat)
    requires i < 16
    ensures k < 16
  {
    match o
    case Lle => i
    case Bbe => 15 - i
  }

  /** The coefficients a byte stands for. */
  function Coeffs(o: Order, b: nat): (c: Poly)
    ensures |c| == 8
  {
    match o
    case Lle => Reverse(BitsOf(b, 8))
    case Bbe => BitsOf(b, 8)
  }

  lemma ByteRound(v: Be128, k: nat)
    requires Valid(v) && k < 16
    ensures BitsOf(Byte(v, k), 8) == ByteBits(v, k)
  {
    ValOfBits(ByteBits(v, k));
  }

  lemma ByteSliceBbe(v: Be128, i: nat)
    requires Valid(v) && i < 16
    ensures ByteBits(v, 15 - i) == Poly128(Bbe, v)[8 * i..8 * i + 8]
  {
    var l, r := ByteBits(v, 15 - i), Poly128(Bbe, v)[8 * i..8 * i + 8];
    forall j | 0 <= j < 8 ensures l[j] == r[j] {
      assert r[j] == Poly128(Bbe, v)[8 * i + j];
    }
  }

  lemma ByteSliceLle(v: Be128, i: nat)
    requires Valid(v) && i < 16
    ensures Reverse(ByteBits(v, i)) == Poly128(Lle, v)[8 * i..8 * i + 8]
  {
    var p := Poly128(Lle, v);
    var l, r := Reverse(ByteBits(v, i)), p[8 * i..8 * i + 8];
    forall j | 0 <= j < 8 ensures l[j] == r[j] { BitLle(v, i, j, p); }
  }

  lemma BitLle(v: Be128, i: nat, j: nat, p: Poly)
    requires Valid(v) && i < 16 && j < 8 && p == Poly128(Lle, v)
    ensures ByteBits(v, i)[7 - j] == p[8 * i + j]
  {
    if i < 8 {
      assert ByteBits(v, i)[7 - j] == v.a[63 - (8 * i + j)];
    } else {
      assert ByteBits(v, i)[7 - j] == v.b[127 - (8 * i + j)];
    }
  }

  lemma ByteCoeffs(o: Order, v: Be128, i: nat)
    requires Valid(v) && i < 16
    ensures Coeffs(o, Byte(v, MemIndex(o, i))) == Poly128(o, v)[8 * i..8 * i + 8]
  {
    ByteRound(v, MemIndex(o, i));
    match o
    case Lle => ByteSliceLle(v, i);
    case Bbe => ByteSliceBbe(v, i);
  }

  // ---- what a row of a table holds ----

  /** What an entry must be: g times the polynomial that its index stands for. */
  ghost predicate EntryOk(o: Order, e: Be128, b: nat, g: Poly)
    requires |g| == 128
  {
    Valid(e) && EntryIs(o, e, b, g)
  }

  ghost predicate EntryIs(o: Order, e: Be128, b: nat, g: Poly)
    requires |g| == 128 && Valid(e)
  {
    Poly128(o, e) == MulSum(Coeffs(o, b), g)
  }

  /** The exponent of x that bit m of a byte stands for. */
  function Exponent(o: Order, m: nat): (e: nat)
    requires m < 8
    ensures e < 8
  {
    match o
    case Lle => 7 - m
    case Bbe => m
  }

  lemma MulSumUnit(m: nat, r: nat, v: Poly)
    requires |v| == 128
    ensures MulSum(Zero(m) + [true] + Zero(r), v) == XPow(m, v)
  {
    var w := XPow(m, v);
    MulSumConcat(Zero(m) + [true], Zero(r), v);
    MulSumConcat(Zero(m), [true], v);
    MulSumZero(m, v);
    MulSumZero(r, XPow(m + 1, v));
    assert [true][1..] == [];
    assert MulSum([true], w) == Add(w, Zero(128));
    AddLaws(w, Zero(128), Zero(128));
  }

  function Unit(m: nat): (r: Poly)
    requires m < 8
    ensures |r| == 8
  {
    Zero(m) + [true] + Zero(7 - m)
  }

  lemma BitsOfPower(m: nat)
    requires m < 8
    ensures BitsOf(Pow2(m), 8) == Unit(m)
  {
    BitsOfShift(1, m, 8);
    BitsOfZero(7 - m);
    assert BitsOf(1, 8 - m) == [true] + BitsOf(0, 7 - m);
    assert Zero(m) + ([true] + Zero(7 - m)) == Unit(m);
  }

  lemma ReverseUnit(m: nat)
    requires m < 8
    ensures Reverse(Unit(m)) == Unit(7 - m)
  {
    forall i | 0 <= i < 8 ensures Reverse(Unit(m))[i] == Unit(7 - m)[i] {
      assert Reverse(Unit(m))[i] == Unit(m)[7 - i];
    }
  }

  lemma PowerCoeffs(o: Order, m: nat)
    requires m < 8
    ensures Coeffs(o, Pow2(m)) == Unit(Exponent(o, m))
  {
    BitsOfPower(m);
    ReverseUnit(m);
  }

  /** The entry for a single bit is a power of x times g. */
  lemma PowerEntry(o: Order, m: nat, g: Poly)
    requires m < 8 && |g| == 128
    ensures MulSum(Coeffs(o, Pow2(m)), g) == XPow(Exponent(o, m), g)
  {
    PowerCoeffs(o, m);
    UnitEntry(Coeffs(o, Pow2(m)), Exponent(o, m), g);
  }

  lemma UnitEntry(c: Poly, e: nat, g: Poly)
    requires e < 8 && c == Unit(e) && |g| == 128
    ensures MulSum(c, g) == XPow(e, g)
  {
    MulSumUnit(e, 7 - e, g);
  }

  lemma {:induction false} BitsOfSum(m: nat, k: nat, n: nat)
    requires k < Pow2(m)
    ensures BitsOf(Pow2(m) + k, n) == Add(BitsOf(Pow2(m), n), BitsOf(k, n))
  {
    if n > 0 {
      if m > 0 {
        BitsOfSum(m - 1, k / 2, n - 1);
        assert (Pow2(m) + k) / 2 == Pow2(m - 1) + k / 2 && (Pow2(m) + k) % 2 == k % 2 && Pow2(m) / 2 == Pow2(m - 1);
      } else {
        BitsOfZero(n);
      }
    }
  }

  lemma ReverseAdd(u: Poly, v: Poly, w: Poly)
    requires |u| == |v| && w == Add(u, v)
    ensures Reverse(w) == Add(Reverse(u), Reverse(v))
  {
    forall i | 0 <= i < |u| ensures Reverse(w)[i] == Add(Reverse(u), Reverse(v))[i] {
      assert Reverse(w)[i] == w[|u| - 1 - i];
      assert Reverse(u)[i] == u[|u| - 1 - i] && Reverse(v)[i] == v[|u| - 1 - i];
    }
  }

  /** Entries add up as their indices do. */
  lemma SumEntry(o: Order, m: nat, k: nat, b: nat, g: Poly)
    requires m < 8 && k < Pow2(m) && b == Pow2(m) + k && |g| == 128
    ensures MulSum(Coeffs(o, b), g) == Add(MulSum(Coeffs(o, Pow2(m)), g), MulSum(Coeffs(o, k), g))
  {
    CoeffsSum(o, m, k, b);
    MulSumAdd(Coeffs(o, Pow2(m)), Coeffs(o, k), g);
  }

  lemma CoeffsSum(o: Order, m: nat, k: nat, b: nat)
    requires m < 8 && k < Pow2(m) && b == Pow2(m) + k
    ensures Coeffs(o, b) == Add(Coeffs(o, Pow2(m)), Coeffs(o, k))
  {
    BitsOfSum(m, k, 8);
    ReverseAdd(BitsOf(Pow2(m), 8), BitsOf(k, 8), BitsOf(b, 8));
  }

  lemma ZeroEntry(o: Order, b: nat, g: Poly)
    requires b == 0 && |g| == 128
    ensures EntryOk(o, ZERO_BLOCK, b, g)
  {
    ZeroCoeffs(o, b, 8);
    MulSumZero(8, g);
    ZeroPoly(o);
  }

  lemma ZeroPoly(o: Order)
    ensures Poly128(o, ZERO_BLOCK) == Zero(128)
  {
  }

  lemma ZeroCoeffs(o: Order, b: nat, n: nat)
    requires b == 0 && n == 8
    ensures Coeffs(o, b) == Zero(n)
  {
    BitsOfZero(n);
    var z := Zero(n);
    assert Reverse(z) == z;
  }

  // ---- rows, as values ----

  /** The entries of a row that have one bit set, by the number of that bit. */
  predicate PowersOk(o: Order, ps: seq<Be128>, g: Poly)
    requires |g| == 128
  {
    |ps| == 8 && forall m :: 0 <= m < 8 ==> Valid(ps[m]) && Poly128(o, ps[m]) == XPow(Exponent(o, m), g)
  }

  predicate AllValid(ps: seq<Be128>) {
    |ps| == 8 && forall m :: 0 <= m < 8 ==> Valid(ps[m])
  }

  /** The entry for the n low bits of b. */
  function Entry(ps: seq<Be128>, b: nat, n: nat): (e: Be128)
    requires AllValid(ps) && n <= 8
    ensures Valid(e)
    decreases n
  {
    if n == 0 then ZERO_BLOCK
    else if b >= Pow2(n - 1) then BlockXor(ps[n - 1], Entry(ps, b - Pow2(n - 1), n - 1))
    else Entry(ps, b, n - 1)
  }

  function Row(ps: seq<Be128>): (row: seq<Be128>)
    requires AllValid(ps)
    ensures |row| == 256 && forall b :: 0 <= b < 256 ==> row[b] == Entry(ps, b, 8)
  {
    seq(256, b requires 0 <= b < 256 => Entry(ps, b, 8))
  }

  lemma {:induction false} EntryHighZeros(ps: seq<Be128>, b: nat, m: nat, n: nat)
    requires AllValid(ps) && m <= n <= 8 && b < Pow2(m)
    ensures Entry(ps, b, n) == Entry(ps, b, m)
    decreases n
  {
    if m < n {
      Pow2Monotone(m, n - 1);
      EntryHighZeros(ps, b, m, n - 1);
    }
  }

  lemma {:induction false} EntryZero(ps: seq<Be128>, n: nat)
    requires AllValid(ps) && n <= 8
    ensures Entry(ps, 0, n) == ZERO_BLOCK
  {
    if n > 0 { EntryZero(ps, n - 1); }
  }

  lemma XorZero(e: Be128)
    requires Valid(e)
    ensures BlockXor(e, ZERO_BLOCK) == e
  {
    AddLaws(e.a, e.a, e.a);
    AddLaws(e.b, e.b, e.b);
  }

  /** What the nested loop relies on: the entry for 2^m + k is the sum of two entries. */
  lemma EntrySum(ps: seq<Be128>, m: nat, k: nat)
    requires AllValid(ps) && m < 8 && k < Pow2(m)
    ensures Entry(ps, Pow2(m), 8) == ps[m]
    ensures Entry(ps, Pow2(m) + k, 8) == BlockXor(ps[m], Entry(ps, k, 8))
  {
    assert Pow2(m + 1) == 2 * Pow2(m);
    EntryHighZeros(ps, Pow2(m), m + 1, 8);
    EntryHighZeros(ps, Pow2(m) + k, m + 1, 8);
    EntryHighZeros(ps, k, m, 8);
    EntryZero(ps, m);
    XorZero(ps[m]);
  }

  lemma EntryAdds(o: Order, p: Be128, e: Be128, m: nat, k: nat, b: nat, g: Poly)
    requires |g| == 128 && Valid(p) && m < 8 && k < Pow2(m) && b == Pow2(m) + k
    requires Poly128(o, p) == XPow(Exponent(o, m), g) && EntryOk(o, e, k, g)
    ensures EntryOk(o, BlockXor(p, e), b, g)
  {
    PowerEntry(o, m, g);
    SumEntry(o, m, k, b, g);
    XorIsAdd(o, p, e);
  }

  lemma EntryTop(o: Order, ps: seq<Be128>, b: nat, k: nat, n: nat, g: Poly)
    requires |g| == 128 && PowersOk(o, ps, g) && 0 < n <= 8 && Pow2(n - 1) <= b < Pow2(n) && k == b - Pow2(n - 1)
    requires EntryOk(o, Entry(ps, k, n - 1), k, g)
    ensures EntryOk(o, Entry(ps, b, n), b, g)
  {
    hide EntryIs;
    EntryAdds(o, ps[n - 1], Entry(ps, k, n - 1), n - 1, k, b, g);
  }

  /** What an entry means: g times the polynomial its index stands for. */
  lemma {:induction false} EntryMeaning(o: Order, ps: seq<Be128>, b: nat, n: nat, g: Poly)
    requires |g| == 128 && PowersOk(o, ps, g) && n <= 8 && b < Pow2(n)
    ensures EntryOk(o, Entry(ps, b, n), b, g)
    decreases n
  {
    hide EntryIs;
    if n == 0 {
      ZeroEntry(o, b, g);
    } else if b >= Pow2(n - 1) {
      EntryMeaning(o, ps, b - Pow2(n - 1), n - 1, g);
      EntryTop(o, ps, b, b - Pow2(n - 1), n, g);
    } else {
      EntryMeaning(o, ps, b, n - 1, g);
    }
  }

  // ---- powers, as values ----

  function TimesXs(o: Order, g: Be128, n: nat): (r: Be128)
    requires Valid(g)
    ensures Valid(r)
  {
    if n == 0 then g else TimesX(o, TimesXs(o, g, n - 1))
  }

  function FirstPowers(o: Order, g: Be128): (ps: seq<Be128>)
    requires Valid(g)
    ensures AllValid(ps) && forall m :: 0 <= m < 8 ==> ps[m] == TimesXs(o, g, Exponent(o, m))
  {
    seq(8, m requires 0 <= m < 8 => TimesXs(o, g, Exponent(o, m)))
  }

  function NextPowers(o: Order, ps: seq<Be128>): (r: seq<Be128>)
    requires AllValid(ps)
    ensures AllValid(r) && forall m :: 0 <= m < 8 ==> r[m] == TimesX8(o, ps[m])
  {
    seq(8, m requires 0 <= m < 8 => TimesX8(o, ps[m]))
  }

  lemma OneMoreX(o: Order, w: Be128, n: nat, g: Poly)
    requires |g| == 128 && Valid(w) && n > 0 && Poly128(o, w) == XPow(n - 1, g)
    ensures Poly128(o, TimesX(o, w)) == XPow(n, g)
  {
    TimesXIsX(o, w);
  }

  lemma TimesXsMeaning(o: Order, g: Be128, n: nat, p: Poly)
    requires Valid(g) && p == Poly128(o, g)
    ensures Poly128(o, TimesXs(o, g, n)) == XPow(n, p)
  {
    if n > 0 {
      TimesXsMeaning(o, g, n - 1, p);
      OneMoreX(o, TimesXs(o, g, n - 1), n, p);
    }
  }

  lemma FirstPowersOk(o: Order, g: Be128)
    requires Valid(g)
    ensures PowersOk(o, FirstPowers(o, g), Poly128(o, g))
  {
    forall m | 0 <= m < 8 ensures Poly128(o, FirstPowers(o, g)[m]) == XPow(Exponent(o, m), Poly128(o, g)) {
      TimesXsMeaning(o, g, Exponent(o, m), Poly128(o, g));
    }
  }

  lemma NextPower(o: Order, e: Be128, n: nat, g: Poly)
    requires |g| == 128 && Valid(e) && Poly128(o, e) == XPow(n, g)
    ensures Poly128(o, TimesX8(o, e)) == XPow(n, XPow(8, g))
  {
    TimesX8IsXPow8(o, e);
    XPowPlus(8, n, g);
    XPowPlus(n, 8, g);
  }

  lemma NextPowersOk(o: Order, ps: seq<Be128>, g: Poly)
    requires |g| == 128 && PowersOk(o, ps, g)
    ensures PowersOk(o, NextPowers(o, ps), XPow(8, g))
  {
    forall m | 0 <= m < 8 ensures Poly128(o, NextPowers(o, ps)[m]) == XPow(Exponent(o, m), XPow(8, g)) {
      NextPower(o, ps[m], Exponent(o, m), g);
    }
  }

  // ---- building rows in place ----

  predicate HasPowers(row: seq<Be128>, ps: seq<Be128>) {
    |row| == 256 && |ps| == 8 && row[0] == ZERO_BLOCK && forall m :: 0 <= m < 8 ==> PowerAt(row, m) == ps[m]
  }

  function PowerAt(row: seq<Be128>, m: nat): Be128
    requires |row| == 256
  {
    if Pow2(m) < 256 then row[Pow2(m)] else ZERO_BLOCK
  }

  /** Writing one entry keeps those of the other powers of two. */
  lemma KeepPowers(row: seq<Be128>, row': seq<Be128>, j: nat, m: nat, ps: seq<Be128>, lo: nat, hi: nat)
    requires |row| == |row'| == 256 && |ps| == 8 && j == Pow2(m) < 256 && hi <= 8 && !(lo <= m < hi)
    requires row' == row[j := row'[j]]
    requires forall n :: lo <= n < hi ==> PowerAt(row, n) == ps[n]
    ensures forall n :: lo <= n < hi ==> PowerAt(row', n) == ps[n]
  {
    Pow2Distinct(m);
  }

  /** The entries of a first row with one bit set: g, x g, ... x^7 g. */
  predicate Chain(o: Order, g: Be128, ps: seq<Be128>) {
    && AllValid(ps)
    && match o
       case Lle => ps[7] == g && forall m :: 0 <= m < 7 ==> ps[m] == XLle(ps[m + 1])
       case Bbe => ps[0] == g && forall m :: 0 <= m < 7 ==> ps[m + 1] == XBbe(ps[m])
  }

  lemma FirstPowersChain(o: Order, g: Be128)
    requires Valid(g)
    ensures Chain(o, g, FirstPowers(o, g))
  {
    var ps := FirstPowers(o, g);
    assert TimesXs(o, g, 0) == g;
    forall m | 0 <= m < 7 ensures o.Lle? ==> ps[m] == XLle(ps[m + 1]) {
      if o.Lle? { assert TimesXs(o, g, 7 - m) == TimesX(o, TimesXs(o, g, 6 - m)); }
    }
    forall m | 0 <= m < 7 ensures o.Bbe? ==> ps[m + 1] == XBbe(ps[m]) {
      if o.Bbe? { assert TimesXs(o, g, m + 1) == TimesX(o, TimesXs(o, g, m)); }
    }
  }

  /** Each entry is x times the one after it, or before it. */
  ghost predicate Down(timesX: Be128 --> Be128, ps: seq<Be128>, m: nat)
    requires m + 1 < |ps|
  {
    timesX.requires(ps[m + 1]) && ps[m] == timesX(ps[m + 1])
  }

  ghost predicate Up(timesX: Be128 --> Be128, ps: seq<Be128>, m: nat)
    requires m + 1 < |ps|
  {
    timesX.requires(ps[m]) && ps[m + 1] == timesX(ps[m])
  }

  /** Bits from the highest to the lowest stand for x^0 to x^7; `timesX` is gf128mul_x_lle. */
  method InitPowersLle(timesX: Be128 --> Be128, g: Be128, t: array<Be128>, ghost ps: seq<Be128>)
    requires t.Length == 256 && t[0] == ZERO_BLOCK && |ps| == 8 && ps[7] == g
    requires forall m :: 0 <= m < 7 ==> Down(timesX, ps, m)
    modifies t
    ensures HasPowers(t[..], ps)
  {
    assert Pow2(7) == 128 && Pow2(6) == 64;
    t[128] := g;
    var j, m := 64, 6;
    while j > 0
      invariant -1 <= m <= 6 && j == (if m >= 0 then Pow2(m) else 0)
      invariant t[0] == ZERO_BLOCK
      invariant forall n :: m + 1 <= n < 8 ==> PowerAt(t[..], n) == ps[n]
      decreases j
    {
      PowersBelow(m + 1);
      assert PowerAt(t[..], m + 1) == ps[m + 1] && Pow2(m + 1) == j + j && Down(timesX, ps, m);
      ghost var before := t[..];
      t[j] := timesX(t[j + j]);
      KeepPowers(before, t[..], j, m, ps, m + 1, 8);
      j, m := j / 2, m - 1;
    }
  }

  /** Bits from the lowest to the highest stand for x^0 to x^7; `timesX` is gf128mul_x_bbe. */
  method InitPowersBbe(timesX: Be128 --> Be128, g: Be128, t: array<Be128>, ghost ps: seq<Be128>)
    requires t.Length == 256 && t[0] == ZERO_BLOCK && |ps| == 8 && ps[0] == g
    requires forall m :: 0 <= m < 7 ==> Up(timesX, ps, m)
    modifies t
    ensures HasPowers(t[..], ps)
  {
    assert Pow2(0) == 1 && Pow2(6) == 64 && Pow2(7) == 128;
    t[1] := g;
    var j, m := 1, 0;
    while j <= 64
      invariant 0 <= m <= 7 && j == Pow2(m) && (m < 7 ==> j <= 64)
      invariant t[0] == ZERO_BLOCK
      invariant forall n :: 0 <= n < m + 1 ==> PowerAt(t[..], n) == ps[n]
      decreases 128 - j
    {
      PowersBelow(m + 1);
      if m < 6 { Pow2Monotone(m + 1, 6); }
      assert PowerAt(t[..], m) == ps[m] && Pow2(m + 1) == j + j && Up(timesX, ps, m);
      ghost var before := t[..];
      t[j + j] := timesX(t[j]);
      KeepPowers(before, t[..], j + j, m + 1, ps, 0, m + 1);
      j, m := j + j, m + 1;
    }
  }

  lemma PowersBelow(m: nat)
    requires m < 8
    ensures Pow2(m) <= 128
  {
    Pow2Monotone(m, 7);
    assert Pow2(7) == 128;
  }

  lemma Pow2Distinct(m: nat)
    ensures forall n: nat :: n != m ==> Pow2(n) != Pow2(m)
  {
    forall n: nat | n != m ensures Pow2(n) != Pow2(m) {
      if n < m { Pow2Strict(n, m); } else { Pow2Strict(m, n); }
    }
  }

  lemma Pow2Strict(i: nat, j: nat)
    requires i < j
    ensures Pow2(i) < Pow2(j)
  {
    Pow2Monotone(i, j - 1);
  }
}
