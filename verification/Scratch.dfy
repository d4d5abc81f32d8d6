/**
 The scratch buffer of the block cipher walk: where the spots for a destination block, a
 source block and the IV are placed in it, and why it is big enough.
 */
module Scratch {
  import opened Arithmetic

  /** ALIGN(addr, a). */
  function Align(addr: nat, a: nat): (r: nat)
    requires a > 0
    ensures r % a == 0 && addr <= r < addr + a
  {
    var up := addr + a - 1;
    RoundDown(up, a);
    up - up % a
  }

  /** blkcipher_get_spot: the start, unless the spot would straddle a page; then the page. */
  function GetSpot(start: nat, len: nat, page: nat): (r: nat)
    requires len > 0 && page > 0
  {
    var end := start + len - 1;
    var endPage := end - end % page;
    if start > endPage then start else endPage
  }

  /** What the sizes have to do with one another: a is the alignment, c the alignment of
      allocated memory. crypto_check_alg and the algorithms' own definitions see to this. */
  predicate Sizes(a: nat, c: nat, bs: nat, page: nat) {
    && a > 0 && c > 0 && bs > 0 && page > 0
    && (c % a == 0 || a % c == 0)
    && bs % a == 0 && page % a == 0
    && 8 * bs <= page
  }

  /** alignmask & ~(crypto_tfm_ctx_alignment() - 1), both powers of two. */
  function Slack(a: nat, c: nat): (r: nat)
    requires a > 0 && c > 0
  {
    (a - 1) - (a - 1) % c
  }

  predicate NoStraddle(start: nat, len: nat, page: nat)
    requires len > 0 && page > 0
  {
    start / page == (start + len - 1) / page
  }

  // ---- one spot ----

  /** Where a spot goes: it does not straddle a page, and it is at the start or, when that would
      straddle one, at the page, fewer bytes further on than it is long. */
  lemma SpotPlace(start: nat, len: nat, page: nat)
    requires 0 < len <= page
    ensures NoStraddle(GetSpot(start, len, page), len, page)
    ensures start <= GetSpot(start, len, page)
    ensures NoStraddle(start, len, page) ==> GetSpot(start, len, page) == start
    ensures !NoStraddle(start, len, page) ==>
              GetSpot(start, len, page) % page == 0 && start < GetSpot(start, len, page) < start + len
  {
    var end := start + len - 1;
    var k := end / page;
    DivMod(end, page);
    DivMod(start, page);
    Quotient(page * k, page, k, 0);
    LessTimes(start / page, k, page);
    LessTimes(k, start / page, page);
    assert end - end % page == page * k;
    if start <= page * k { Quotient(page * k + len - 1, page, k, len - 1); }
  }

  /** A spot that moves, moves by a multiple of the alignment. */
  lemma SpotMove(start: nat, len: nat, page: nat, a: nat)
    requires 0 < len <= page && a > 0 && start % a == 0 && page % a == 0
    ensures GetSpot(start, len, page) % a == 0
    ensures GetSpot(start, len, page) - start <= (len - 1) - (len - 1) % a
  {
    SpotPlace(start, len, page);
    var r := GetSpot(start, len, page);
    if r != start {
      DivMod(r, page);
      MultipleTimes(r / page, page, a);
      MultipleSum(r, start, a);
      BelowMultiple(r - start, len, a);
    } else {
      BelowMultiple(0, len, a);
    }
  }

  /** After a spot that begins a page, one that ends within the page stays where it is. */
  lemma SpotStays(start: nat, len: nat, page: nat, from: nat)
    requires 0 < len <= page && from % page == 0 && from <= start && start + len <= from + page
    ensures GetSpot(start, len, page) == start
  {
    DivMod(from, page);
    var k := from / page;
    Quotient(start, page, k, start - from);
    Quotient(start + len - 1, page, k, start + len - 1 - from);
    SpotPlace(start, len, page);
  }

  // ---- the buffer ----

  /** Aligning the start of allocated memory costs no more than the slack. */
  lemma AlignSlack(addr: nat, a: nat, c: nat)
    requires a > 0 && c > 0 && addr % c == 0 && (c % a == 0 || a % c == 0)
    ensures Align(addr, a) <= addr + Slack(a, c)
  {
    var r := Align(addr, a);
    if a % c == 0 {
      DivMod(r, a);
      DivMod(a, c);
      MultipleTimes(r / a, a, c);
      MultipleSum(r, addr, c);
      BelowMultiple(r - addr, a, c);
    } else {
      DivMod(addr, c);
      MultipleTimes(addr / c, c, a);
      if r > addr {
        MultipleSum(r, addr, a);
        BelowMultiple(r - addr, a, a);
        Quotient(a - 1, a, 0, a - 1);
      }
    }
  }

  /** The aligned start is also as aligned as allocated memory is. */
  lemma AlignAllocated(addr: nat, a: nat, c: nat)
    requires a > 0 && c > 0 && addr % c == 0 && (c % a == 0 || a % c == 0)
    ensures Align(addr, a) % c == 0
  {
    var r := Align(addr, a);
    if a % c == 0 {
      DivMod(r, a);
      MultipleTimes(r / a, a, c);
    } else {
      DivMod(addr, c);
      MultipleTimes(addr / c, c, a);
      AlignUnique(addr, a, addr);
    }
  }

  lemma AlignUnique(addr: nat, a: nat, r: nat)
    requires a > 0 && r % a == 0 && addr <= r < addr + a
    ensures Align(addr, a) == r
  {
    var q := Align(addr, a);
    DivMod(q, a);
    DivMod(r, a);
    LessTimes(q / a, r / a, a);
    LessTimes(r / a, q / a, a);
  }

  // ---- the spots ----

  datatype Spots = Spots(dst: nat, src: nat, iv: nat)

  /** The three spots, in the order blkcipher_copy_iv passes them; blkcipher_next_slow and
      blkcipher_done_slow find the first two again. */
  function Place(addr: nat, a: nat, bs: nat, ivsize: nat, page: nat): (r: Spots)
    requires a > 0 && bs > 0 && ivsize > 0 && page > 0
  {
    var dst := GetSpot(Align(addr, a), bs, page);
    var src := GetSpot(dst + bs, bs, page);
    Spots(dst, src, GetSpot(src + bs, ivsize, page))
  }

  /** The sizes that are allocated. */
  function SlowSize(a: nat, c: nat, bs: nat): (n: int)
    requires a > 0 && c > 0
  {
    3 * bs - a + Slack(a, c)
  }

  function IvSize(a: nat, c: nat, bs: nat, ivsize: nat): (n: int)
    requires a > 0 && c > 0
  {
    2 * bs + ivsize + (if bs > ivsize then bs else ivsize) - a + Slack(a, c)
  }

  /** How far a spot for the IV can move: the last multiple of a before its length. */
  function Shift(ivsize: nat, a: nat): (n: nat)
    requires a > 0 && ivsize > 0
  {
    (ivsize - 1) - (ivsize - 1) % a
  }

  lemma ShiftWhole(len: nat, a: nat)
    requires a > 0 && len > 0 && len % a == 0
    ensures Shift(len, a) == len - a
  {
    DivMod(len, a);
    LessTimes(0, len / a, a);
    LessTimes(len / a, 0, a);
    Quotient(len - 1, a, len / a - 1, a - 1);
  }

  lemma ShiftMultiple(ivsize: nat, a: nat)
    requires a > 0 && ivsize > 0
    ensures Shift(ivsize, a) % a == 0 && Shift(ivsize, a) < ivsize
  {
    RoundDown(ivsize - 1, a);
  }

  lemma ShiftWithin(ivsize: nat, bs: nat, a: nat)
    requires a > 0 && 0 < ivsize <= bs && bs % a == 0
    ensures Shift(ivsize, a) <= bs - a
  {
    ShiftMultiple(ivsize, a);
    BelowMultiple(Shift(ivsize, a), bs, a);
    ShiftWhole(bs, a);
  }

  lemma ShiftPart(ivsize: nat, a: nat)
    requires a > 0 && ivsize > 0 && ivsize % a != 0
    ensures Shift(ivsize, a) > ivsize - a
  {
    RoundDown(ivsize - 1, a);
    if (ivsize - 1) % a == a - 1 {
      DivMod(ivsize - 1, a);
      Quotient(ivsize, a, (ivsize - 1) / a + 1, 0);
    }
  }

  lemma ShiftBounds(ivsize: nat, bs: nat, a: nat)
    requires a > 0 && ivsize > 0 && bs > 0 && bs % a == 0
    ensures Shift(ivsize, a) % a == 0 && Shift(ivsize, a) < ivsize
    ensures ivsize <= bs ==> Shift(ivsize, a) <= bs - a
    ensures ivsize % a == 0 ==> Shift(ivsize, a) == ivsize - a
    ensures ivsize % a != 0 ==> Shift(ivsize, a) > ivsize - a
  {
    hide Shift;
    ShiftMultiple(ivsize, a);
    if ivsize <= bs { ShiftWithin(ivsize, bs, a); }
    if ivsize % a == 0 { ShiftWhole(ivsize, a); } else { ShiftPart(ivsize, a); }
  }

  lemma Squeeze(x: nat, ivsize: nat, a: nat)
    requires a > 0 && ivsize > 0 && x % a == 0 && x <= Shift(ivsize, a)
    ensures x == Shift(ivsize, a) || x <= Shift(ivsize, a) - a
  {
    RoundDown(ivsize - 1, a);
    DivMod(x, a);
    DivMod(Shift(ivsize, a), a);
    LessTimes(x / a, Shift(ivsize, a) / a, a);
    LessTimes(Shift(ivsize, a) / a, x / a, a);
  }

  /** The spots follow one another without straddling a page. */
  lemma SpotsApart(addr: nat, a: nat, bs: nat, ivsize: nat, page: nat)
    requires a > 0 && 0 < bs <= page && 0 < ivsize <= page
    ensures var r := Place(addr, a, bs, ivsize, page);
            && addr <= r.dst && r.dst + bs <= r.src && r.src + bs <= r.iv
            && NoStraddle(r.dst, bs, page) && NoStraddle(r.src, bs, page) && NoStraddle(r.iv, ivsize, page)
  {
    var r := Place(addr, a, bs, ivsize, page);
    SpotPlace(Align(addr, a), bs, page);
    SpotPlace(r.dst + bs, bs, page);
    SpotPlace(r.src + bs, ivsize, page);
  }

  /** At most one of the first two spots moves, and by no more than bs - a. */
  lemma TwoSpots(start: nat, a: nat, bs: nat, page: nat)
    requires a > 0 && bs > 0 && page > 0 && start % a == 0 && bs % a == 0 && page % a == 0 && 8 * bs <= page
    ensures var dst := GetSpot(start, bs, page);
            var src := GetSpot(dst + bs, bs, page);
            && src <= start + bs + (bs - a) && src % a == 0
            && (src == start + bs || (src % page == 0 || dst % page == 0))
            && (dst != start ==> dst % page == 0 && src == dst + bs)
            && (src != dst + bs ==> src % page == 0)
  {
    var dst := GetSpot(start, bs, page);
    SpotPlace(start, bs, page);
    SpotMove(start, bs, page, a);
    ShiftWhole(bs, a);
    MultipleSum(dst, bs, a);
    SpotPlace(dst + bs, bs, page);
    SpotMove(dst + bs, bs, page, a);
    if dst != start { SpotStays(dst + bs, bs, page, dst); }
  }

  /** The buffer of blkcipher_next_slow is big enough. */
  lemma SlowFits(addr: nat, a: nat, c: nat, bs: nat, page: nat)
    requires Sizes(a, c, bs, page) && addr % c == 0
    ensures Place(addr, a, bs, bs, page).src + bs <= addr + SlowSize(a, c, bs)
  {
    AlignSlack(addr, a, c);
    TwoSpots(Align(addr, a), a, bs, page);
  }

  predicate IvFits(addr: nat, a: nat, c: nat, bs: nat, ivsize: nat, page: nat)
    requires Sizes(a, c, bs, page) && ivsize > 0
  {
    Place(addr, a, bs, ivsize, page).iv + ivsize <= addr + IvSize(a, c, bs, ivsize)
  }

  /** What the sizes must satisfy for the buffer of blkcipher_copy_iv to be big enough. */
  predicate IvSizesOk(a: nat, c: nat, bs: nat, ivsize: nat)
    requires a > 0 && c > 0 && ivsize > 0
  {
    ivsize <= bs || ivsize % a == 0 || (2 * bs + Shift(ivsize, a)) % c != 0
  }

  lemma IvFitsWhen(addr: nat, a: nat, c: nat, bs: nat, ivsize: nat, page: nat)
    requires Sizes(a, c, bs, page) && page % c == 0 && ivsize > 0 && 8 * ivsize <= page && addr % c == 0
    requires IvSizesOk(a, c, bs, ivsize)
    ensures IvFits(addr, a, c, bs, ivsize, page)
  {
    var start, r := Align(addr, a), Place(addr, a, bs, ivsize, page);
    AlignSlack(addr, a, c);
    AlignAllocated(addr, a, c);
    TwoSpots(start, a, bs, page);
    MultipleSum(r.src, bs, a);
    SpotMove(r.src + bs, ivsize, page, a);
    SpotPlace(r.src + bs, ivsize, page);
    if r.dst != start {
      SpotStays(r.src + bs, ivsize, page, r.dst);
    } else if r.src != r.dst + bs {
      SpotStays(r.src + bs, ivsize, page, r.src);
    } else {
      ThirdSpot(start, a, c, bs, ivsize, page, r.iv);
    }
  }

  lemma ThirdSpot(start: nat, a: nat, c: nat, bs: nat, ivsize: nat, page: nat, iv: nat)
    requires Sizes(a, c, bs, page) && page % c == 0 && ivsize > 0 && 8 * ivsize <= page
    requires start % a == 0 && start % c == 0 && IvSizesOk(a, c, bs, ivsize)
    requires iv == GetSpot(start + 2 * bs, ivsize, page)
    ensures iv <= start + 2 * bs + (if bs > ivsize then bs else ivsize) - a
  {
    var from := start + 2 * bs;
    MultipleSum(bs, bs, a);
    MultipleSum(start, 2 * bs, a);
    SpotMove(from, ivsize, page, a);
    SpotPlace(from, ivsize, page);
    ShiftBounds(ivsize, bs, a);
    ShiftBounds(bs, bs, a);
    BelowMultiple(0, bs, a);
    ShiftWhole(bs, a);
    if iv != from && ivsize > bs && ivsize % a != 0 {
      MultipleSum(iv, from, a);
      Squeeze(iv - from, ivsize, a);
      DivMod(iv, page);
      MultipleTimes(iv / page, page, c);
      MultipleSum(iv, start, c);
    }
  }

  /** Where it fails: a start whose third spot has to move as far as one can. */
  function BadStart(a: nat, c: nat, bs: nat, ivsize: nat, page: nat): (addr: int)
    requires a > 0 && c > 0 && ivsize > 0
  {
    page - 2 * bs - Shift(ivsize, a) - Slack(a, c)
  }

  lemma BadAlign(a: nat, c: nat, bs: nat, ivsize: nat, page: nat)
    requires Sizes(a, c, bs, page) && page % c == 0 && ivsize > 0 && 8 * ivsize <= page
    requires !IvSizesOk(a, c, bs, ivsize)
    ensures BadStart(a, c, bs, ivsize, page) >= 0 && BadStart(a, c, bs, ivsize, page) % c == 0
    ensures Align(BadStart(a, c, bs, ivsize, page), a) == page - 2 * bs - Shift(ivsize, a)
  {
    var m, addr := 2 * bs + Shift(ivsize, a), BadStart(a, c, bs, ivsize, page);
    ShiftBounds(ivsize, bs, a);
    MultipleSum(bs, bs, a);
    MultipleSum(2 * bs, Shift(ivsize, a), a);
    DivMod(bs, a);
    LessTimes(0, bs / a, a);
    MultipleSum(page, m, a);
    MultipleSum(page, m, c);
    if a % c == 0 {
      ShiftWhole(a, c);
      DivMod(a, c);
      LessTimes(0, a / c, c);
      MultipleSum(a, c, c);
      MultipleSum(page - m, a - c, c);
    } else {
      DivMod(c, a);
      LessTimes(0, c / a, a);
      Quotient(a - 1, c, 0, a - 1);
    }
    AlignUnique(addr, a, page - m);
  }

  lemma MovedToPage(from: nat, len: nat, page: nat)
    requires 0 < len <= page && from < page < from + len
    ensures GetSpot(from, len, page) == page
  {
    Quotient(from + len - 1, page, 1, from + len - 1 - page);
  }

  lemma IvOverruns(a: nat, c: nat, bs: nat, ivsize: nat, page: nat)
    requires Sizes(a, c, bs, page) && page % c == 0 && ivsize > 0 && 8 * ivsize <= page
    requires !IvSizesOk(a, c, bs, ivsize)
    ensures BadStart(a, c, bs, ivsize, page) >= 0 && BadStart(a, c, bs, ivsize, page) % c == 0
    ensures !IvFits(BadStart(a, c, bs, ivsize, page), a, c, bs, ivsize, page)
  {
    var addr, shift, slack := BadStart(a, c, bs, ivsize, page), Shift(ivsize, a), Slack(a, c);
    BadAlign(a, c, bs, ivsize, page);
    ShiftBounds(ivsize, bs, a);
    DivMod(bs, a);
    LessTimes(0, bs / a, a);
    ThirdMoves(addr, a, bs, ivsize, page, shift);
    assert addr == page - 2 * bs - shift - slack;
    assert IvSize(a, c, bs, ivsize) == 2 * bs + ivsize + ivsize - a + slack;
  }

  lemma ThirdMoves(addr: nat, a: nat, bs: nat, ivsize: nat, page: nat, shift: nat)
    requires a > 0 && bs > 0 && 8 * bs <= page && 8 * ivsize <= page && 0 < shift < ivsize
    requires Align(addr, a) == page - 2 * bs - shift
    ensures Place(addr, a, bs, ivsize, page).iv == page
  {
    var start := page - 2 * bs - shift;
    SpotStays(start, bs, page, 0);
    SpotStays(start + bs, bs, page, 0);
    MovedToPage(start + 2 * bs, ivsize, page);
  }

  /** The buffer of blkcipher_copy_iv is big enough for every address it may be given exactly
      when the sizes are right; an IV as long as a block is. */
  lemma IvFitsExactlyWhen(a: nat, c: nat, bs: nat, ivsize: nat, page: nat)
    requires Sizes(a, c, bs, page) && page % c == 0 && ivsize > 0 && 8 * ivsize <= page
    ensures (forall addr: nat :: addr % c == 0 ==>
            IvFits(addr, a, c, bs, ivsize, page)) <==> IvSizesOk(a, c, bs, ivsize)
  {
    if IvSizesOk(a, c, bs, ivsize) {
      forall addr: nat | addr % c == 0 ensures IvFits(addr, a, c, bs, ivsize, page) {
        IvFitsWhen(addr, a, c, bs, ivsize, page);
      }
    } else {
      IvOverruns(a, c, bs, ivsize, page);
    }
  }

  /** Sizes for which it is not: the IV of 6 bytes ends 2 bytes behind the 16 that are
      allocated at 4084. */
  lemma IvOverrunsHere()
    ensures Sizes(4, 4, 4, 4096) && !IvSizesOk(4, 4, 4, 6)
    ensures Place(4084, 4, 4, 6, 4096).iv + 6 == 4084 + IvSize(4, 4, 4, 6) + 2
  {
  }
}
