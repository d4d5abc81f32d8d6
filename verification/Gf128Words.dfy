/**
 Multiplication by x and by x^8 as the kernel does it: on two 64-bit words, with a table
 of 16-bit reduction values, in both bit orders.  Words are sequences of bits, the least
 significant bit first.
 */
module Gf128Words {
  import opened Polynomials

  type Word = seq<bool>

  /** A block: two big-endian 64-bit words, `a` the more significant one. */
  datatype Be128 = Be128(a: Word, b: Word)

  predicate Valid(v: Be128) {
    |v.a| == 64 && |v.b| == 64
  }

  const ZERO_BLOCK: Be128 := Be128(Zero(64), Zero(64))

  /** The bits of a number, least significant first. */
  function BitsOf(n: nat, k: nat): (r: seq<bool>)
    ensures |r| == k
  {
    if k == 0 then [] else [n % 2 == 1] + BitsOf(n / 2, k - 1)
  }

  function Shl(w: Word, k: nat): (r: Word)
    ensures |r| == |w|
  {
    seq(|w|, i requires 0 <= i < |w| => i >= k && w[i - k])
  }

  function Shr(w: Word, k: nat): (r: Word)
    ensures |r| == |w|
  {
    seq(|w|, i requires 0 <= i < |w| => i + k < |w| && w[i + k])
  }

  function Or(u: Word, v: Word): (r: Word)
    requires |u| == |v|
    ensures |r| == |u|
  {
    seq(|u|, i requires 0 <= i < |u| => u[i] || v[i])
  }

  function BlockXor(p: Be128, q: Be128): (r: Be128)
    requires Valid(p) && Valid(q)
    ensures Valid(r)
  {
    Be128(Add(p.a, q.a), Add(p.b, q.b))
  }

  // ---- the reduction tables ----

  /** The sum of the constants, from number s on, selected by the bits of a table index. */
  function Select(index: seq<bool>, constants: seq<nat>, s: nat): (r: Word)
    requires |index| + s == |constants|
    ensures |r| == 64
    decreases |index|
  {
    if index == [] then Zero(64)
    else Add(Times(index[0], BitsOf(constants[s], 64)), Select(index[1..], constants, s + 1))
  }

  // The constants for bits 0x01, 0x02, ... 0x80 of the index.
  const XDA_BBE: seq<nat> := [0x0087, 0x010e, 0x021c, 0x0438, 0x0870, 0x10e0, 0x21c0, 0x4380]
  const XDA_LLE: seq<nat> := [0x01c2, 0x0384, 0x0708, 0x0e10, 0x1c20, 0x3840, 0x7080, 0xe100]

  function TableBbe(index: seq<bool>): (r: Word)
    requires |index| == 8
    ensures |r| == 64
  {
    Select(index, XDA_BBE, 0)
  }

  function TableLle(index: seq<bool>): (r: Word)
    requires |index| == 8
    ensures |r| == 64
  {
    Select(index, XDA_LLE, 0)
  }

  function LowByte(w: Word): (r: seq<bool>)
    requires |w| == 64
    ensures |r| == 8
  {
    w[..8]
  }

  // ---- the four functions ----

  function XBbe(v: Be128): (r: Be128)
    requires Valid(v)
    ensures Valid(r)
  {
    var tt := TableBbe(LowByte(Shr(v.a, 63)));
    Be128(Or(Shl(v.a, 1), Shr(v.b, 63)), Add(Shl(v.b, 1), tt))
  }

  function X8Bbe(v: Be128): (r: Be128)
    requires Valid(v)
    ensures Valid(r)
  {
    var tt := TableBbe(LowByte(Shr(v.a, 56)));
    Be128(Or(Shl(v.a, 8), Shr(v.b, 56)), Add(Shl(v.b, 8), tt))
  }

  function XLle(v: Be128): (r: Be128)
    requires Valid(v)
    ensures Valid(r)
  {
    var tt := TableLle(LowByte(Shl(v.b, 7)));
    Be128(Add(Shr(v.a, 1), Shl(tt, 48)), Or(Shr(v.b, 1), Shl(v.a, 63)))
  }

  function X8Lle(v: Be128): (r: Be128)
    requires Valid(v)
    ensures Valid(r)
  {
    var tt := TableLle(LowByte(v.b));
    Be128(Add(Shr(v.a, 8), Shl(tt, 48)), Or(Shr(v.b, 8), Shl(v.a, 56)))
  }

  // ---- blocks as polynomials ----

  datatype Order = Lle | Bbe

  /** In the bbe order the coefficient of x^i is bit i of the 128-bit number; in the lle
      order it is bit 127 - i. */
  function Poly128(o: Order, v: Be128): (r: Poly)
    requires Valid(v)
    ensures |r| == 128
  {
    match o
    case Bbe => v.b + v.a
    case Lle => seq(128, i requires 0 <= i < 128 => if i < 64 then v.a[63 - i] else v.b[127 - i])
  }

  function TimesX(o: Order, v: Be128): (r: Be128)
    requires Valid(v)
    ensures Valid(r)
  {
    match o
    case Bbe => XBbe(v)
    case Lle => XLle(v)
  }

  function TimesX8(o: Order, v: Be128): (r: Be128)
    requires Valid(v)
    ensures Valid(r)
  {
    match o
    case Bbe => X8Bbe(v)
    case Lle => X8Lle(v)
  }

  // ---- what is in the tables ----

  lemma {:induction false} BitsOfZero(k: nat)
    ensures BitsOf(0, k) == Zero(k)
  {
    if k > 0 { BitsOfZero(k - 1); }
  }

  function Pow2(k: nat): (r: nat)
    ensures r > 0
  {
    if k == 0 then 1 else 2 * Pow2(k - 1)
  }

  lemma BitsOfDouble(n: nat, k: nat)
    requires k > 0
    ensures BitsOf(2 * n, k) == [false] + BitsOf(n, k - 1)
  {
  }

  lemma {:induction false} BitsOfShift(n: nat, s: nat, k: nat)
    requires s <= k
    ensures BitsOf(n * Pow2(s), k) == Zero(s) + BitsOf(n, k - s)
    decreases s
  {
    if s == 0 {
      assert Zero(0) + BitsOf(n, k) == BitsOf(n, k);
    } else {
      assert n * Pow2(s) == 2 * (n * Pow2(s - 1));
      BitsOfDouble(n * Pow2(s - 1), k);
      BitsOfShift(n, s - 1, k - 1);
      assert Zero(s) == [false] + Zero(s - 1);
    }
  }

  lemma {:induction false} BitAt(n: nat, k: nat, i: nat)
    requires i < k
    ensures BitsOf(n, k)[i] == (n / Pow2(i) % 2 == 1)
    decreases i
  {
    if i > 0 {
      BitAt(n / 2, k - 1, i - 1);
      HalfDiv(n, Pow2(i - 1));
    }
  }

  lemma HalfDiv(n: nat, d: nat)
    requires d > 0
    ensures n / 2 / d == n / (2 * d)
  {
    var q, r := n / 2 / d, n / 2 % d;
    assert n == 2 * (q * d + r) + n % 2;
    assert n == q * (2 * d) + (2 * r + n % 2);
    assert 0 <= 2 * r + n % 2 < 2 * d;
    DivUnique(n, 2 * d, q, 2 * r + n % 2);
  }

  lemma MulAway(e: int, d: int)
    requires d > 0
    ensures e >= 1 ==> e * d >= d
    ensures e <= -1 ==> e * d <= -d
  {
  }

  lemma DivUnique(n: nat, d: nat, q: nat, r: nat)
    requires d > 0 && n == q * d + r && r < d
    ensures n / d == q
  {
    var e := n / d - q;
    assert n == (n / d) * d + n % d;
    assert e * d == r - n % d;
    MulAway(e, d);
  }

  lemma {:induction false} Pow2Monotone(i: nat, j: nat)
    requires i <= j
    ensures Pow2(i) <= Pow2(j)
    decreases j - i
  {
    if i < j { Pow2Monotone(i, j - 1); }
  }

  lemma TapBit(k: nat, i: nat)
    requires i < k
    ensures BitsOf(0x87, k)[i] == Tap(i) && BitsOf(0x1c2, k)[i] == Tap(8 - i)
  {
    BitAt(0x87, k, i);
    BitAt(0x1c2, k, i);
    assert Pow2(0) == 1 && Pow2(1) == 2 && Pow2(2) == 4 && Pow2(3) == 8 && Pow2(4) == 16;
    assert Pow2(5) == 32 && Pow2(6) == 64 && Pow2(7) == 128 && Pow2(8) == 256 && Pow2(9) == 512;
    if i >= 9 {
      Pow2Monotone(9, i);
      DivUnique(0x87, Pow2(i), 0, 0x87);
      DivUnique(0x1c2, Pow2(i), 0, 0x1c2);
    }
  }

  /** The sum over k of top[k] times the coefficient of x^i in x^k * (x^7 + x^2 + x + 1). */
  function Spill(top: seq<bool>, i: int): bool {
    if top == [] then false else (top[0] && Tap(i)) != Spill(top[1..], i - 1)
  }

  /** The same with the bits of a table index taken the other way round. */
  function SpillLle(index: seq<bool>, i: int): bool {
    if index == [] then false else (index[0] && Tap(i)) != SpillLle(index[1..], i + 1)
  }

  lemma {:induction false} SpillOutside(top: seq<bool>, i: int)
    requires i < 0 || i > |top| + 6
    ensures !Spill(top, i)
  {
    if top != [] { SpillOutside(top[1..], i - 1); }
  }

  lemma Constants(s: nat)
    requires s < 8
    ensures XDA_BBE[s] == 0x87 * Pow2(s) && XDA_LLE[s] == 0x1c2 * Pow2(s)
  {
    assert Pow2(0) == 1 && Pow2(1) == 2 && Pow2(2) == 4 && Pow2(3) == 8;
    assert Pow2(4) == 16 && Pow2(5) == 32 && Pow2(6) == 64 && Pow2(7) == 128;
  }

  lemma ConstantBit(s: nat, i: nat)
    requires s < 8 && i < 64
    ensures BitsOf(XDA_BBE[s], 64)[i] == Tap(i - s)
    ensures BitsOf(XDA_LLE[s], 64)[i] == Tap(8 + s - i)
  {
    Constants(s);
    BitsOfShift(0x87, s, 64);
    BitsOfShift(0x1c2, s, 64);
    if i >= s { TapBit(64 - s, i - s); }
  }

  lemma SelectAt(index: seq<bool>, constants: seq<nat>, s: nat, i: nat)
    requires |index| + s == |constants| && index != [] && i < 64
    ensures Select(index, constants, s)[i]
         == ((index[0] && BitsOf(constants[s], 64)[i]) != Select(index[1..], constants, s + 1)[i])
  {
  }

  /** Constant k is x^k times the low terms of the modulus. */
  ghost predicate ShiftedTaps(cs: seq<nat>) {
    |cs| == 8 && forall k, i :: 0 <= k < 8 && 0 <= i < 64 ==> BitsOf(cs[k], 64)[i] == Tap(i - k)
  }

  /** The same in the other bit order. */
  ghost predicate ShiftedTapsLle(cs: seq<nat>) {
    |cs| == 8 && forall k, i :: 0 <= k < 8 && 0 <= i < 64 ==> BitsOf(cs[k], 64)[i] == Tap(8 + k - i)
  }

  lemma TablesAreTaps()
    ensures ShiftedTaps(XDA_BBE) && ShiftedTapsLle(XDA_LLE)
  {
    forall k, i | 0 <= k < 8 && 0 <= i < 64
      ensures BitsOf(XDA_BBE[k], 64)[i] == Tap(i - k) && BitsOf(XDA_LLE[k], 64)[i] == Tap(8 + k - i)
    {
      ConstantBit(k, i);
    }
  }

  lemma SelectNone(constants: seq<nat>, s: nat, i: nat)
    requires s == |constants| && i < 64
    ensures !Select([], constants, s)[i] && forall j :: !Spill([], j) && !SpillLle([], j)
  {
  }

  lemma TapAt(cs: seq<nat>, s: nat, i: nat)
    requires |cs| == 8 && s < 8 && i < 64
    ensures ShiftedTaps(cs) ==> BitsOf(cs[s], 64)[i] == Tap(i - s)
    ensures ShiftedTapsLle(cs) ==> BitsOf(cs[s], 64)[i] == Tap(8 + s - i)
  {
    hide BitsOf, Tap;
  }

  lemma SpillStep(index: seq<bool>, i: int)
    requires index != []
    ensures Spill(index, i) == ((index[0] && Tap(i)) != Spill(index[1..], i - 1))
    ensures SpillLle(index, i) == ((index[0] && Tap(i)) != SpillLle(index[1..], i + 1))
  {
  }

  lemma {:induction false} SelectBbe(index: seq<bool>, cs: seq<nat>, s: nat, i: nat)
    requires ShiftedTaps(cs) && |cs| == 8 && |index| + s == 8 && i < 64
    ensures Select(index, cs, s)[i] == Spill(index, i - s)
    decreases |index|
  {
    hide Select, BitsOf, ShiftedTaps, Spill, Tap;
    if index == [] {
      SelectNone(cs, s, i);
    } else {
      SelectBbe(index[1..], cs, s + 1, i);
      SelectAt(index, cs, s, i);
      TapAt(cs, s, i);
      SpillStep(index, i - s);
    }
  }

  lemma {:induction false} SelectLle(index: seq<bool>, cs: seq<nat>, s: nat, i: nat)
    requires ShiftedTapsLle(cs) && |cs| == 8 && |index| + s == 8 && i < 64
    ensures Select(index, cs, s)[i] == SpillLle(index, 8 + s - i)
    decreases |index|
  {
    hide Select, BitsOf, ShiftedTapsLle, SpillLle, Tap;
    if index == [] {
      SelectNone(cs, s, i);
    } else {
      SelectLle(index[1..], cs, s + 1, i);
      SelectAt(index, cs, s, i);
      TapAt(cs, s, i);
      SpillStep(index, 8 + s - i);
    }
  }

  function Reverse(s: seq<bool>): (r: seq<bool>)
    ensures |r| == |s|
  {
    seq(|s|, i requires 0 <= i < |s| => s[|s| - 1 - i])
  }

  lemma {:induction false} SpillConcat(a: seq<bool>, b: seq<bool>, i: int)
    ensures Spill(a + b, i) == (Spill(a, i) != Spill(b, i - |a|))
  {
    if a == [] { assert a + b == b; }
    else {
      assert (a + b)[1..] == a[1..] + b;
      SpillConcat(a[1..], b, i - 1);
    }
  }

  lemma {:induction false} SpillReverse(index: seq<bool>, i: int)
    ensures Spill(Reverse(index), i) == SpillLle(index, i - |index| + 1)
  {
    if index != [] {
      SpillReverse(index[1..], i);
      assert Reverse(index) == Reverse(index[1..]) + [index[0]];
      SpillConcat(Reverse(index[1..]), [index[0]], i);
      assert [index[0]][1..] == [];
    }
  }

  // ---- multiplication by powers of x, coefficient by coefficient ----

  /** As long as no term is reduced twice, x^n moves every coefficient up by n and adds
      what the n highest spill over. */
  lemma {:induction false} XPowCoefficient(n: nat, v: Poly, i: nat)
    requires |v| == 128 && n <= 120 && i < 128
    ensures XPow(n, v)[i] == ((i >= n && v[i - n]) != Spill(v[128 - n..], i))
  {
    if n == 0 {
      assert v[128..] == [];
    } else {
      var w := XPow(n - 1, v);
      XPowCoefficient(n - 1, v, 127);
      SpillOutside(v[129 - n..], 127);
      assert w[127] == v[128 - n];
      assert X(w)[i] == (([false] + w)[i] != (w[127] && Tap(i)));
      assert v[128 - n..][1..] == v[129 - n..];
      if i > 0 { XPowCoefficient(n - 1, v, i - 1); } else { SpillOutside(v[129 - n..], -1); }
    }
  }

  // ---- the word operations are multiplications by x and by x^8 ----

  /** A table index holds the `n` bits shifted out, padded with zeros. */
  lemma SpillPadded(top: seq<bool>, index: seq<bool>, i: int)
    requires |top| <= 8 && index == top + Zero(8 - |top|)
    ensures Spill(index, i) == Spill(top, i)
  {
    SpillConcat(top, Zero(8 - |top|), i);
    SpillZero(8 - |top|, i - |top|);
  }

  lemma TableBbeBit(top: seq<bool>, i: nat)
    requires |top| <= 8 && i < 64
    ensures TableBbe(top + Zero(8 - |top|))[i] == Spill(top, i)
  {
    TablesAreTaps();
    SelectBbe(top + Zero(8 - |top|), XDA_BBE, 0, i);
    SpillPadded(top, top + Zero(8 - |top|), i);
  }

  lemma ReversePadded(low: seq<bool>, index: seq<bool>)
    requires |low| <= 8 && index == Zero(8 - |low|) + low
    ensures Reverse(index) == Reverse(low) + Zero(8 - |low|)
  {
  }

  lemma SpillLlePadded(low: seq<bool>, index: seq<bool>, i: nat)
    requires |low| <= 8 && index == Zero(8 - |low|) + low
    ensures SpillLle(index, i - 7) == Spill(Reverse(low), i)
  {
    SpillReverse(index, i);
    ReversePadded(low, index);
    SpillPadded(Reverse(low), Reverse(index), i);
  }

  lemma TableLleBit(low: seq<bool>, i: nat)
    requires |low| <= 8 && i < 16
    ensures TableLle(Zero(8 - |low|) + low)[15 - i] == Spill(Reverse(low), i)
  {
    TablesAreTaps();
    SelectLle(Zero(8 - |low|) + low, XDA_LLE, 0, 15 - i);
    SpillLlePadded(low, Zero(8 - |low|) + low, i);
  }

  /** Shifting by `n` and adding what the bits shifted out spill over. */
  lemma ShiftBbeIsXPow(v: Be128, n: nat, tt: Word)
    requires Valid(v) && 0 < n <= 8 && |tt| == 64
    requires forall i :: 0 <= i < 64 ==> tt[i] == Spill(v.a[64 - n..], i)
    ensures Poly128(Bbe, Be128(Or(Shl(v.a, n), Shr(v.b, 64 - n)), Add(Shl(v.b, n), tt))) == XPow(n, Poly128(Bbe, v))
  {
    var p, high, low := Poly128(Bbe, v), Or(Shl(v.a, n), Shr(v.b, 64 - n)), Add(Shl(v.b, n), tt);
    var top := v.a[64 - n..];
    assert p[128 - n..] == top;
    forall i | 0 <= i < 128 ensures (low + high)[i] == XPow(n, p)[i] {
      XPowCoefficient(n, p, i);
      if i < 64 {
        assert low[i] == ((i >= n && v.b[i - n]) != tt[i]);
      } else {
        SpillOutside(top, i);
        BbeHighBit(v, n, p, high, i);
      }
    }
  }

  lemma BbeHighBit(v: Be128, n: nat, p: Poly, high: Word, i: nat)
    requires Valid(v) && 0 < n <= 8 && p == Poly128(Bbe, v) && high == Or(Shl(v.a, n), Shr(v.b, 64 - n)) &&
             64 <= i < 128
    ensures high[i - 64] == p[i - n]
  {
    assert high[i - 64] == if i - 64 >= n then v.a[i - 64 - n] else v.b[i - n];
  }

  /** The mirror image, for the other bit order. */
  lemma ShiftLleIsXPow(v: Be128, n: nat, tt: Word)
    requires Valid(v) && 0 < n <= 8 && |tt| == 64
    requires forall i :: 0 <= i < 16 ==> tt[15 - i] == Spill(Reverse(v.b[..n]), i)
    ensures Poly128(Lle, Be128(Add(Shr(v.a, n), Shl(tt, 48)), Or(Shr(v.b, n), Shl(v.a, 64 - n)))) ==
            XPow(n, Poly128(Lle, v))
  {
    var p, high, low := Poly128(Lle, v), Add(Shr(v.a, n), Shl(tt, 48)), Or(Shr(v.b, n), Shl(v.a, 64 - n));
    var top := Reverse(v.b[..n]);
    assert p[128 - n..] == top;
    forall i | 0 <= i < 128 ensures (if i < 64 then high[63 - i] else low[127 - i]) == XPow(n, p)[i] {
      XPowCoefficient(n, p, i);
      if i >= 64 {
        SpillOutside(top, i);
        LleLowBit(v, n, p, low, i);
      } else {
        LleHighBit(v, n, p, tt, top, high, i);
      }
    }
  }

  lemma LleLowBit(v: Be128, n: nat, p: Poly, low: Word, i: nat)
    requires Valid(v) && 0 < n <= 8 && p == Poly128(Lle, v) && low == Or(Shr(v.b, n), Shl(v.a, 64 - n)) && 64 <= i < 128
    ensures low[127 - i] == p[i - n]
  {
    assert low[127 - i] == if i - 64 >= n then v.b[127 - i + n] else v.a[n - 1 - (i - 64)];
  }

  lemma LleHighBit(v: Be128, n: nat, p: Poly, tt: Word, top: seq<bool>, high: Word, i: nat)
    requires Valid(v) && 0 < n <= 8 && p == Poly128(Lle, v) && |tt| == 64 && i < 64 && |top| == n
    requires high == Add(Shr(v.a, n), Shl(tt, 48)) && forall k :: 0 <= k < 16 ==> tt[15 - k] == Spill(top, k)
    ensures high[63 - i] == ((i >= n && p[i - n]) != Spill(top, i))
  {
    if i >= 16 { SpillOutside(top, i); }
    assert Shl(tt, 48)[63 - i] == (i < 16 && tt[15 - i]);
    assert Shr(v.a, n)[63 - i] == (i >= n && v.a[63 - i + n]);
  }

  lemma TimesXBbe(v: Be128, p: Poly)
    requires Valid(v) && p == Poly128(Bbe, v)
    ensures Poly128(Bbe, XBbe(v)) == XPow(1, p)
  {
    var top := v.a[63..];
    assert LowByte(Shr(v.a, 63)) == top + Zero(7);
    forall i | 0 <= i < 64 ensures TableBbe(top + Zero(7))[i] == Spill(top, i) { TableBbeBit(top, i); }
    ShiftBbeIsXPow(v, 1, TableBbe(top + Zero(7)));
  }

  lemma TimesXLle(v: Be128, p: Poly)
    requires Valid(v) && p == Poly128(Lle, v)
    ensures Poly128(Lle, XLle(v)) == XPow(1, p)
  {
    var low := v.b[..1];
    assert LowByte(Shl(v.b, 7)) == Zero(7) + low;
    forall i | 0 <= i < 16 ensures TableLle(Zero(7) + low)[15 - i] == Spill(Reverse(low), i) { TableLleBit(low, i); }
    ShiftLleIsXPow(v, 1, TableLle(Zero(7) + low));
  }

  /** gf128mul_x_*: multiplication by x, in both bit orders. */
  lemma TimesXIsX(o: Order, v: Be128)
    requires Valid(v)
    ensures Poly128(o, TimesX(o, v)) == X(Poly128(o, v))
  {
    var p := Poly128(o, v);
    assert XPow(1, p) == X(XPow(0, p));
    match o
    case Bbe => TimesXBbe(v, p);
    case Lle => TimesXLle(v, p);
  }

  lemma TimesX8Bbe(v: Be128, p: Poly)
    requires Valid(v) && p == Poly128(Bbe, v)
    ensures Poly128(Bbe, X8Bbe(v)) == XPow(8, p)
  {
    var top := v.a[56..];
    assert LowByte(Shr(v.a, 56)) == top + Zero(0);
    forall i | 0 <= i < 64 ensures TableBbe(top + Zero(0))[i] == Spill(top, i) { TableBbeBit(top, i); }
    ShiftBbeIsXPow(v, 8, TableBbe(top + Zero(0)));
  }

  lemma TimesX8Lle(v: Be128, p: Poly)
    requires Valid(v) && p == Poly128(Lle, v)
    ensures Poly128(Lle, X8Lle(v)) == XPow(8, p)
  {
    var low := v.b[..8];
    assert LowByte(v.b) == Zero(0) + low;
    forall i | 0 <= i < 16 ensures TableLle(Zero(0) + low)[15 - i] == Spill(Reverse(low), i) { TableLleBit(low, i); }
    ShiftLleIsXPow(v, 8, TableLle(Zero(0) + low));
  }

  /** gf128mul_x8_*: one table look-up is eight multiplications by x. */
  lemma TimesX8IsXPow8(o: Order, v: Be128)
    requires Valid(v)
    ensures Poly128(o, TimesX8(o, v)) == XPow(8, Poly128(o, v))
  {
    match o
    case Bbe => TimesX8Bbe(v, Poly128(o, v));
    case Lle => TimesX8Lle(v, Poly128(o, v));
  }

  lemma XorIsAdd(o: Order, p: Be128, q: Be128)
    requires Valid(p) && Valid(q)
    ensures Poly128(o, BlockXor(p, q)) == Add(Poly128(o, p), Poly128(o, q))
  {
  }

  lemma {:induction false} SpillZero(n: nat, i: int)
    ensures !Spill(Zero(n), i)
  {
    if n > 0 {
      assert Zero(n)[1..] == Zero(n - 1);
      SpillZero(n - 1, i - 1);
    }
  }
}
