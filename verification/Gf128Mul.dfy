/**
 The public multiplication functions: building a 4k or a 64k table for a factor g, and
 multiplying a block by g with it.  All of them compute the product in the field.
 */
module Gf128Mul {
  import opened Polynomials
  import opened Gf128Words
  import opened Gf128Tables

  /** What the nested loops go by: an entry whose index has several bits set is the sum of
      the entry for the highest bit and the entry for the rest. */
  predicate Sums(want: seq<Be128>, j: nat) {
    && |want| == 256 && j <= 128
    && (forall b :: 0 <= b < 256 ==> Valid(want[b]))
    && forall k :: 0 <= k < j ==> SumAt(want, j, k)
  }

  predicate SumAt(want: seq<Be128>, j: nat, k: nat)
    requires |want| == 256 && k < j <= 128
    requires Valid(want[j]) && Valid(want[k])
  {
    want[j + k] == BlockXor(want[j], want[k])
  }

  lemma RowSums(ps: seq<Be128>, m: nat)
    requires AllValid(ps) && m < 8
    ensures Pow2(m) <= 128 && Sums(Row(ps), Pow2(m)) && Row(ps)[Pow2(m)] == ps[m]
  {
    PowersBelow(m);
    var j := Pow2(m);
    forall k | 0 <= k < j ensures SumAt(Row(ps), j, k) {
      EntrySum(ps, m, k);
    }
    EntrySum(ps, m, 0);
  }

  /** From the entries with one bit set to all 256 entries. */
  method FillRow(t: array<Be128>, ghost ps: seq<Be128>)
    requires t.Length == 256 && AllValid(ps) && HasPowers(t[..], ps)
    modifies t
    ensures t[..] == Row(ps)
  {
    ghost var want := Row(ps);
    EntryZero(ps, 8);
    assert Pow2(0) == 1 && Pow2(1) == 2 && Pow2(8) == 256;
    assert PowerAt(t[..], 0) == ps[0];
    RowSums(ps, 0);
    var j, m := 2, 1;
    while j < 256
      invariant 1 <= m <= 8 && j == Pow2(m)
      invariant forall b :: 0 <= b < j ==> t[b] == want[b]
      invariant forall n :: m <= n < 8 ==> PowerAt(t[..], n) == ps[n]
      decreases 256 - j
    {
      if m < 8 { RowSums(ps, m); }
      assert PowerAt(t[..], m) == ps[m];
      ghost var before := t[..];
      FillSpan(t, want, j);
      KeepHighPowers(before, t[..], m, ps);
      j, m := j + j, m + 1;
    }
  }

  /** The inner loop: entries j + 1 to 2j - 1. */
  method FillSpan(t: array<Be128>, ghost want: seq<Be128>, j: nat)
    requires t.Length == 256 && 0 < j && Sums(want, j)
    requires forall b :: 0 <= b <= j ==> t[b] == want[b]
    modifies t
    ensures forall b :: 0 <= b < j + j ==> t[b] == want[b]
    ensures forall b :: j + j <= b < 256 ==> t[..][b] == old(t[..])[b]
  {
    var k := 1;
    while k < j
      invariant 1 <= k <= j
      invariant forall b :: 0 <= b < j + k ==> t[b] == want[b]
      invariant forall b :: j + j <= b < 256 ==> t[b] == old(t[b])
    {
      assert t[j] == want[j] && t[k] == want[k] && SumAt(want, j, k);
      t[j + k] := BlockXor(t[j], t[k]);
      k := k + 1;
    }
  }

  lemma KeepHighPowers(row: seq<Be128>, row': seq<Be128>, m: nat, ps: seq<Be128>)
    requires |row| == |row'| == 256 && |ps| == 8 && m < 8
    requires forall b :: 2 * Pow2(m) <= b < 256 ==> row'[b] == row[b]
    requires forall n :: m <= n < 8 ==> PowerAt(row, n) == ps[n]
    ensures forall n :: m + 1 <= n < 8 ==> PowerAt(row', n) == ps[n]
  {
    forall n | m + 1 <= n < 8 ensures PowerAt(row', n) == ps[n] {
      Pow2Monotone(m + 1, n);
      assert PowerAt(row, n) == ps[n];
    }
  }

  /** gf128mul_init_4k_lle and gf128mul_init_4k_bbe: entry b is g times what b stands for. */
  method Init4k(o: Order, g: Be128) returns (t: array<Be128>)
    requires Valid(g)
    ensures fresh(t) && t[..] == Row(FirstPowers(o, g))
  {
    t := new Be128[256](_ => ZERO_BLOCK);
    ghost var ps := FirstPowers(o, g);
    FirstPowersChain(o, g);
    match o {
      case Lle => InitPowersLle(v requires Valid(v) => XLle(v), g, t, ps);
      case Bbe => InitPowersBbe(v requires Valid(v) => XBbe(v), g, t, ps);
    }
    FillRow(t, ps);
  }

  /** The row of a 64k table for byte i, by the entries with one bit set. */
  function RowPowers(o: Order, g: Be128, i: nat): (ps: seq<Be128>)
    requires Valid(g)
    ensures AllValid(ps)
  {
    if i == 0 then FirstPowers(o, g) else NextPowers(o, RowPowers(o, g, i - 1))
  }

  lemma NextRowOk(o: Order, ps: seq<Be128>, n: nat, m: nat, p: Poly)
    requires |p| == 128 && PowersOk(o, ps, XPow(n, p)) && m == 8 + n
    ensures PowersOk(o, NextPowers(o, ps), XPow(m, p))
  {
    NextPowersOk(o, ps, XPow(n, p));
    XPowPlus(8, n, p);
  }

  lemma RowPowersOk(o: Order, g: Be128, i: nat, p: Poly)
    requires Valid(g) && p == Poly128(o, g)
    ensures PowersOk(o, RowPowers(o, g, i), XPow(8 * i, p))
  {
    if i == 0 {
      FirstPowersOk(o, g);
    } else {
      RowPowersOk(o, g, i - 1, p);
      NextRowOk(o, RowPowers(o, g, i - 1), 8 * (i - 1), 8 * i, p);
    }
  }

  /** The single-bit entries of the next row are those of this one times x^8 (`times8`). */
  method NextRowPowers(times8: Be128 --> Be128, prev: seq<Be128>, ghost ps: seq<Be128>, ghost next: seq<Be128>)
    returns (t: array<Be128>)
    requires HasPowers(prev, ps) && |next| == 8
    requires forall m :: 0 <= m < 8 ==> times8.requires(ps[m]) && next[m] == times8(ps[m])
    ensures fresh(t) && t.Length == 256 && HasPowers(t[..], next)
  {
    t := new Be128[256](_ => ZERO_BLOCK);
    assert Pow2(7) == 128;
    var j, m := 128, 7;
    while j > 0
      invariant -1 <= m <= 7 && j == (if m >= 0 then Pow2(m) else 0)
      invariant t[0] == ZERO_BLOCK
      invariant forall n :: m + 1 <= n < 8 ==> PowerAt(t[..], n) == next[n]
      decreases j
    {
      PowersBelow(m);
      assert PowerAt(prev, m) == ps[m];
      ghost var before := t[..];
      t[j] := times8(prev[j]);
      KeepPowers(before, t[..], j, m, next, m + 1, 8);
      j, m := j / 2, m - 1;
    }
  }

  /** Row i + 1 from row i. */
  method NextRow(o: Order, prev: seq<Be128>, ghost ps: seq<Be128>) returns (t: array<Be128>)
    requires AllValid(ps) && prev == Row(ps)
    ensures fresh(t) && t[..] == Row(NextPowers(o, ps))
  {
    RowHasPowers(ps);
    ghost var next := NextPowers(o, ps);
    t := NextRowPowers(v requires Valid(v) => TimesX8(o, v), prev, ps, next);
    FillRow(t, next);
  }

  lemma RowHasPowers(ps: seq<Be128>)
    requires AllValid(ps)
    ensures HasPowers(Row(ps), ps)
  {
    EntryZero(ps, 8);
    forall m | 0 <= m < 8 ensures PowerAt(Row(ps), m) == ps[m] {
      PowersBelow(m);
      EntrySum(ps, m, 0);
    }
  }

  /** gf128mul_init_64k_lle and gf128mul_init_64k_bbe: sixteen rows, one for each byte. */
  method Init64k(o: Order, g: Be128) returns (rows: seq<seq<Be128>>)
    requires Valid(g)
    ensures |rows| == 16 && forall i :: 0 <= i < 16 ==> rows[i] == Row(RowPowers(o, g, i))
  {
    var t := Init4k(o, g);
    rows := [t[..]];
    var i := 1;
    while i < 16
      invariant 1 <= i <= 16 && |rows| == i
      invariant forall k :: 0 <= k < i ==> rows[k] == Row(RowPowers(o, g, k))
    {
      t := NextRow(o, rows[i - 1], RowPowers(o, g, i - 1));
      rows := rows + [t[..]];
      i := i + 1;
    }
  }
}
