/**
 The LRW mode: block j is masked, before and after the cipher, with key2 times the number
 of the block.  The kernel does not multiply for each block; it adds to the mask an entry of
 a table, chosen by the counter's trailing ones.
 */
module Lrw {
  import opened Polynomials
  import opened Gf128Words
  import opened Gf128Tables
  import opened Gf128Mul
  import opened Gf128Products
  import opened Gf128Fixed

  // ---- counting in bits ----

  /** The low k of n bits set. */
  function Ones(k: nat, n: nat): (r: seq<bool>)
    ensures |r| == n
  {
    seq(n, i => i < k)
  }

  /** The number of trailing ones. */
  function TrailingOnes(s: seq<bool>): (k: nat)
    ensures k <= |s| && (forall i :: 0 <= i < k ==> s[i]) && (k < |s| ==> !s[k])
  {
    if s != [] && s[0] then 1 + TrailingOnes(s[1..]) else 0
  }

  /** Adding one, in binary, dropping the carry out. */
  function Succ(s: seq<bool>): (r: seq<bool>)
    ensures |r| == |s|
  {
    if s == [] then []
    else if s[0] then [false] + Succ(s[1..])
    else [true] + s[1..]
  }

  /** Addition on a machine word is Succ. */
  lemma {:induction false} SuccIsPlusOne(s: seq<bool>)
    ensures BitsOf(ValOf(s) + 1, |s|) == Succ(s)
  {
    if s != [] {
      SuccIsPlusOne(s[1..]);
      ValOfBits(s[1..]);
      PlusOne(s[0], ValOf(s[1..]), ValOf(s) + 1);
    }
  }

  lemma PlusOne(low: bool, high: nat, n: nat)
    requires n == (if low then 1 else 0) + 2 * high + 1
    ensures (n % 2 == 1) == !low && n / 2 == (if low then high + 1 else high)
  {
  }

  lemma {:induction false} SuccValue(s: seq<bool>)
    ensures ValOf(s) + 1 == Pow2(|s|) <==> TrailingOnes(s) == |s|
    ensures ValOf(s) + 1 < Pow2(|s|) ==> ValOf(Succ(s)) == ValOf(s) + 1
  {
    if s != [] {
      SuccValue(s[1..]);
      ValOfBits(s[1..]);
      assert Succ(s)[1..] == if s[0] then Succ(s[1..]) else s[1..];
    }
  }

  /** One step changes the trailing ones and the zero above them. */
  lemma {:induction false} SuccChanges(s: seq<bool>)
    ensures Add(s, Succ(s)) == Ones(TrailingOnes(s) + 1, |s|)
  {
    if s != [] {
      SuccChanges(s[1..]);
      var t := s[1..];
      forall i | 0 <= i < |s| ensures Add(s, Succ(s))[i] == Ones(TrailingOnes(s) + 1, |s|)[i] {
        if i > 0 {
          assert s[i] == t[i - 1] && Succ(s)[i] == if s[0] then Succ(t)[i - 1] else t[i - 1];
          assert Add(t, Succ(t))[i - 1] == Ones(TrailingOnes(t) + 1, |t|)[i - 1];
        }
      }
    }
  }

  lemma {:induction false} SuccConcat(s: seq<bool>, t: seq<bool>)
    ensures Succ(s + t) == Succ(s) + (if Succ(s) == Zero(|s|) then Succ(t) else t)
    decreases |s|
  {
    if s == [] {
      assert s + t == t && Succ(s) == Zero(0);
    } else {
      SuccConcat(s[1..], t);
      SuccHead(s);
      SuccFirst(s[0], s[1..], t, if Succ(s) == Zero(|s|) then Succ(t) else t, s, s + t);
    }
  }

  lemma SuccFirst(x: bool, s: seq<bool>, t: seq<bool>, high: seq<bool>, xs: seq<bool>, all: seq<bool>)
    requires xs != [] && xs[0] == x && xs[1..] == s && all == xs + t
    requires if x then Succ(s + t) == Succ(s) + high else high == t
    ensures Succ(all) == Succ(xs) + high
  {
    assert all[0] == x && all[1..] == s + t;
    if x {
      assert [false] + (Succ(s) + high) == ([false] + Succ(s)) + high;
    } else {
      assert [true] + (s + t) == ([true] + s) + t;
    }
  }

  lemma SuccHead(s: seq<bool>)
    requires s != []
    ensures Succ(s) == Zero(|s|) <==> s[0] && Succ(s[1..]) == Zero(|s| - 1)
  {
    assert Succ(s)[0] == !s[0];
    assert s[0] ==> Succ(s)[1..] == Succ(s[1..]);
    assert Zero(|s|)[1..] == Zero(|s| - 1) && Zero(|s|) == [false] + Zero(|s| - 1);
  }

  // ---- inc and get_index128 ----

  /** inc: the counter is a big-endian number in two words. */
  function Inc(iv: Be128): (r: Be128)
    requires Valid(iv)
    ensures Valid(r)
  {
    var b := BitsOf(ValOf(iv.b) + 1, 64);
    if b == Zero(64) then Be128(BitsOf(ValOf(iv.a) + 1, 64), b) else Be128(iv.a, b)
  }

  lemma IncIsSucc(iv: Be128)
    requires Valid(iv)
    ensures Poly128(Bbe, Inc(iv)) == Succ(Poly128(Bbe, iv))
  {
    hide BitsOf, ValOf;
    SuccIsPlusOne(iv.b);
    SuccIsPlusOne(iv.a);
    SuccConcat(iv.b, iv.a);
  }

  predicate AtWord(x: nat) {
    x == 0 || x == 32 || x == 64 || x == 96 || x == 128
  }

  /** The 32-bit word of the block that holds bits x to x + 31 of the number. */
  function Word32(v: Be128, x: nat): (w: seq<bool>)
    requires Valid(v) && AtWord(x) && x < 128
    ensures |w| == 32
  {
    if x < 64 then v.b[x..x + 32] else v.a[x - 64..x - 32]
  }

  /** get_index128: word by word, skipping those that are all ones. */
  method GetIndex128(v: Be128) returns (k: nat)
    requires Valid(v)
    ensures k == TrailingOnes(Poly128(Bbe, v))
  {
    ghost var s := Poly128(Bbe, v);
    var x := 0;
    while x < 128
      invariant AtWord(x) && OnesUpTo(s, x)
      decreases 128 - x
    {
      var val := Word32(v, x);
      WordIs(v, x, s);
      var ones := TrailingOnes(val);
      NextWord(s, x, val, ones);
      if ones != 32 { return x + ones; }
      x := x + 32;
    }
    TrailingOnesUnique(s, x);
    return x;
  }

  predicate OnesUpTo(s: seq<bool>, x: nat) {
    x <= |s| && forall i :: 0 <= i < x ==> s[i]
  }

  lemma WordIs(v: Be128, x: nat, s: seq<bool>)
    requires Valid(v) && AtWord(x) && x < 128 && s == Poly128(Bbe, v)
    ensures Word32(v, x) == s[x..x + 32]
  {
  }

  /** A word that is not all ones has the answer. */
  lemma NextWord(s: seq<bool>, x: nat, val: seq<bool>, ones: nat)
    requires OnesUpTo(s, x) && x + 32 <= |s| && val == s[x..x + 32] && ones == TrailingOnes(val)
    ensures ones == 32 ==> OnesUpTo(s, x + 32)
    ensures ones != 32 ==> TrailingOnes(s) == x + ones
  {
    forall i | 0 <= i < x + ones ensures s[i] {
      if i >= x { assert val[i - x]; }
    }
    if ones != 32 {
      assert !val[ones];
      TrailingOnesUnique(s, x + ones);
    }
  }

  lemma {:induction false} TrailingOnesUnique(s: seq<bool>, k: nat)
    requires k <= |s| && (forall i :: 0 <= i < k ==> s[i]) && (k < |s| ==> !s[k])
    ensures TrailingOnes(s) == k
  {
    if k > 0 { TrailingOnesUnique(s[1..], k - 1); }
  }

  // ---- the table of increments ----

  /** The byte order and the size in bytes of an unsigned long. */
  datatype Cpu = Cpu(bigEndian: bool, wordBytes: nat)

  predicate Real(cpu: Cpu) {
    cpu.wordBytes == 4 || cpu.wordBytes == 8
  }

  /** Where in memory byte n of a bitmap lies, which is an array of unsigned longs. */
  function MemoryByte(cpu: Cpu, n: nat): (m: nat)
    requires Real(cpu) && n < 16
    ensures m < 16
  {
    if !cpu.bigEndian then n else cpu.wordBytes * (n / cpu.wordBytes) + (cpu.wordBytes - 1 - n % cpu.wordBytes)
  }

  /** setbit128_bbe: __set_bit with the byte number of the bit reversed. */
  function SetBit(cpu: Cpu, v: Be128, bit: nat): (r: Be128)
    requires Valid(v) && bit < 128 && Real(cpu)
    ensures Valid(r)
  {
    var byte, i := MemoryByte(cpu, 15 - bit / 8), bit % 8;
    if byte < 8 then Be128(v.a[56 - 8 * byte + i := true], v.b)
    else Be128(v.a, v.b[120 - 8 * byte + i := true])
  }

  /** The coefficient that this sets. */
  function Place(cpu: Cpu, bit: nat): (i: nat)
    requires bit < 128 && Real(cpu)
    ensures i < 128
    ensures !cpu.bigEndian ==> i == bit
    ensures cpu.bigEndian && bit == 0 ==> i == 8 * (cpu.wordBytes - 1)
  {
    8 * (15 - MemoryByte(cpu, 15 - bit / 8)) + bit % 8
  }

  lemma SetBitSets(cpu: Cpu, v: Be128, bit: nat)
    requires Valid(v) && bit < 128 && Real(cpu)
    ensures Poly128(Bbe, SetBit(cpu, v, bit)) == Poly128(Bbe, v)[Place(cpu, bit) := true]
  {
  }

  /** What k bits set one after another make. */
  function Marked(cpu: Cpu, k: nat): (p: Poly)
    requires k <= 128 && Real(cpu)
    ensures |p| == 128
  {
    if k == 0 then Zero(128) else Marked(cpu, k - 1)[Place(cpu, k - 1) := true]
  }

  lemma NoneMarked(cpu: Cpu)
    requires Real(cpu)
    ensures Valid(ZERO_BLOCK) && Poly128(Bbe, ZERO_BLOCK) == Marked(cpu, 0)
  {
  }

  lemma {:induction false} MarkedLittle(cpu: Cpu, k: nat)
    requires k <= 128 && Real(cpu) && !cpu.bigEndian
    ensures Marked(cpu, k) == Ones(k, 128)
  {
    if k > 0 { MarkedLittle(cpu, k - 1); }
  }

  /** On a big-endian machine the first bit set is not bit 0 of the number. */
  lemma FirstBitMisplaced(cpu: Cpu, key: Poly)
    requires Real(cpu) && cpu.bigEndian && |key| == 128
    ensures Mul(Marked(cpu, 1), key) == XPow(8 * (cpu.wordBytes - 1), key)
    ensures Mul(Marked(cpu, 1), key) == Mul(Ones(1, 128), key) <==> key == Zero(128)
  {
    var n := 8 * (cpu.wordBytes - 1);
    assert Marked(cpu, 1) == Marked(cpu, 0)[n := true];
    assert Marked(cpu, 1) == Zero(n) + [true] + Zero(127 - n);
    assert Ones(1, 128) == Zero(0) + [true] + Zero(127);
    MulSumUnit(n, 127 - n, key);
    MulSumUnit(0, 127, key);
    MulSumIsMul(Marked(cpu, 1), key);
    MulSumIsMul(Ones(1, 128), key);
    NotFixed(n, key);
  }

  lemma {:induction false} MulSumByZero(c: Poly)
    ensures MulSum(c, Zero(128)) == Zero(128)
    decreases |c|
  {
    if c != [] {
      assert X(Zero(128)) == Zero(128);
      MulSumByZero(c[1..]);
    }
  }

  lemma MulByZero(c: Poly)
    requires |c| == 128
    ensures Mul(c, Zero(128)) == Zero(128)
  {
    MulSumIsMul(c, Zero(128));
    MulSumByZero(c);
  }

  class Priv {
    var table: seq<seq<Be128>>
    var mulinc: seq<Be128>

    /** What setkey leaves: both tables are for key2, and entry i is key2 times i + 1 ones. */
    ghost predicate Keyed(key2: Be128)
      reads this
    {
      Valid(key2) && |table| == 16 && |mulinc| == 128 && Tables(key2)
    }

    ghost predicate Tables(key2: Be128)
      requires Valid(key2) && |table| == 16 && |mulinc| == 128
      reads this
    {
      && (forall i :: 0 <= i < 16 ==> table[i] == Row(RowPowers(Bbe, key2, i)))
      && (forall i :: 0 <= i < 128 ==> EntryFor(mulinc[i], i, Poly128(Bbe, key2)))
    }

    /** What the loop of setkey makes of the increments. */
    ghost predicate Filled(cpu: Cpu, key2: Be128)
      reads this
    {
      && Valid(key2) && Real(cpu) && |table| == 16 && |mulinc| == 128
      && (forall i :: 0 <= i < 16 ==> table[i] == Row(RowPowers(Bbe, key2, i)))
      && (forall i :: 0 <= i < 128 ==> MarkedEntry(cpu, mulinc[i], i, Poly128(Bbe, key2)))
    }

    /** setkey, after the cipher has taken its part of the key.  The table of increments is
        right exactly when the machine is little-endian, or the key is zero and there is
        nothing to get wrong. */
    method SetKey(cpu: Cpu, key2: Be128)
      requires Valid(key2) && Real(cpu)
      modifies this
      ensures Filled(cpu, key2)
      ensures Keyed(key2) <==> !cpu.bigEndian || Poly128(Bbe, key2) == Zero(128)
    {
      hide Keyed, Marked, MarkedEntry, Row, RowPowers, Poly128, Tables;
      table := Init64k(Bbe, key2);
      mulinc := [];
      var tmp, i := ZERO_BLOCK, 0;
      NoneMarked(cpu);
      while i < 128
        invariant 0 <= i <= 128 && Valid(tmp) && Poly128(Bbe, tmp) == Marked(cpu, i)
        invariant |table| == 16 && forall k :: 0 <= k < 16 ==> table[k] == Row(RowPowers(Bbe, key2, k))
        invariant |mulinc| == i && forall k :: 0 <= k < i ==> MarkedEntry(cpu, mulinc[k], k, Poly128(Bbe, key2))
      {
        var entry;
        tmp, entry := NextEntry(cpu, tmp, i, key2);
        mulinc := mulinc + [entry];
        i := i + 1;
      }
      KeyedExactlyWhen(cpu, key2);
    }

    method NextEntry(cpu: Cpu, tmp: Be128, i: nat, key2: Be128) returns (tmp': Be128, entry: Be128)
      requires Valid(key2) && Real(cpu) && i < 128 && Valid(tmp) && Poly128(Bbe, tmp) == Marked(cpu, i)
      requires |table| == 16 && forall k :: 0 <= k < 16 ==> table[k] == Row(RowPowers(Bbe, key2, k))
      ensures Valid(tmp') && Poly128(Bbe, tmp') == Marked(cpu, i + 1)
      ensures MarkedEntry(cpu, entry, i, Poly128(Bbe, key2))
    {
      hide Mul, Row, RowPowers, SetBit, Poly128;
      SetBitSets(cpu, tmp, i);
      tmp' := SetBit(cpu, tmp, i);
      entry := Mul64k(Bbe, tmp', key2, table);
    }

    lemma KeyedExactlyWhen(cpu: Cpu, key2: Be128)
      requires Filled(cpu, key2)
      ensures Keyed(key2) <==> !cpu.bigEndian || Poly128(Bbe, key2) == Zero(128)
    {
      var key := Poly128(Bbe, key2);
      if !cpu.bigEndian || key == Zero(128) {
        forall i | 0 <= i < 128 ensures EntryFor(mulinc[i], i, key) {
          assert MarkedEntry(cpu, mulinc[i], i, key);
          EntryRight(cpu, mulinc[i], i, key);
        }
        assert Tables(key2);
      } else {
        assert MarkedEntry(cpu, mulinc[0], 0, key);
        FirstBitMisplaced(cpu, key);
        FirstEntry(key2);
      }
    }

    lemma FirstEntry(key2: Be128)
      requires Valid(key2) && |mulinc| == 128
      ensures Keyed(key2) ==> EntryFor(mulinc[0], 0, Poly128(Bbe, key2))
    {
      assert Keyed(key2) ==> Tables(key2);
    }

    /** One step of the counter: T <- T xor mulinc[index], I <- I + 1.  `beyond` is what
        the memory after the table holds, which is read when the counter is all ones. */
    method NextTweak(t: Be128, iv: Be128, beyond: Be128, ghost key2: Be128) returns (t': Be128, iv': Be128)
      requires Keyed(key2) && Valid(t) && Valid(iv) && Valid(beyond)
      requires Poly128(Bbe, t) == Mul(Poly128(Bbe, iv), Poly128(Bbe, key2))
      ensures Valid(t') && iv' == Inc(iv)
      ensures Poly128(Bbe, t') == Mul(Poly128(Bbe, iv'), Poly128(Bbe, key2))
         <==> (TrailingOnes(Poly128(Bbe, iv)) < 128 || EntryFor(beyond, 127, Poly128(Bbe, key2)))
    {
      var k := GetIndex128(iv);
      var entry := if k < 128 then mulinc[k] else beyond;
      t' := BlockXor(t, entry);
      iv' := Inc(iv);
      IncIsSucc(iv);
      XorIsAdd(Bbe, t, entry);
      StepExactlyWhen(Poly128(Bbe, iv), Poly128(Bbe, key2), Poly128(Bbe, entry));
      assert Ones(129, 128) == Ones(128, 128);
    }

    method NextAt(t: Be128, iv: Be128, beyond: Be128, ghost key2: Be128, ghost i: nat, ghost mask: nat -> Be128)
      returns (t': Be128, iv': Be128)
      requires Keyed(key2) && Valid(beyond) && i + 1 < Pow2(128)
      requires MasksFor(mask, Poly128(Bbe, key2)) && At(t, iv, i, mask)
      ensures At(t', iv', i + 1, mask)
    {
      ghost var key := Poly128(Bbe, key2);
      ExactBefore(iv, key);
      t', iv' := NextTweak(t, iv, beyond, key2);
      ExactAfter(iv', key);
      SamePolySameBlock(Bbe, t', mask(i + 1));
    }

    /** crypt: `chunks` are the steps the walk makes, each at least one block.  Whatever they
        are, block j of the message is masked with key2 times (iv + j). */
    method Crypt(fn: Be128 -> Be128, chunks: seq<seq<Be128>>, iv: Be128, beyond: Be128,
                 ghost key2: Be128, ghost mask: nat -> Be128)
      returns (out: seq<seq<Be128>>, iv': Be128)
      requires Keyed(key2) && Valid(iv) && Valid(beyond)
      requires MasksFor(mask, Poly128(Bbe, key2))
      requires KeepsValid(fn) && AllChunks(chunks)
      requires ValOf(Poly128(Bbe, iv)) + |Flat(chunks)| <= Pow2(128)
      ensures Sizes(out) == Sizes(chunks)
      ensures Flat(out) == Masked(fn, mask, ValOf(Poly128(Bbe, iv)), Flat(chunks))
      ensures Valid(iv')
      ensures chunks == [] ==> iv' == iv
      ensures chunks != [] ==> ValOf(Poly128(Bbe, iv')) == ValOf(Poly128(Bbe, iv)) + |Flat(chunks)| - 1
    {
      ghost var start := ValOf(Poly128(Bbe, iv));
      ghost var want := Masked(fn, mask, start, Flat(chunks));
      MaskedWanted(fn, mask, start, Flat(chunks));
      if |chunks| == 0 { return [], iv; }
      var t := Mul64k(Bbe, iv, key2, table);
      ExactAfter(iv, Poly128(Bbe, key2));
      SamePolySameBlock(Bbe, t, mask(start));
      out, iv' := CryptChunks(fn, chunks, t, iv, beyond, key2, mask, start, want);
    }

    /** The outer loop, one chunk of the walk after another. */
    method CryptChunks(fn: Be128 -> Be128, chunks: seq<seq<Be128>>, t: Be128, iv: Be128, beyond: Be128,
                       ghost key2: Be128, ghost mask: nat -> Be128, ghost start: nat, ghost want: seq<Be128>)
      returns (out: seq<seq<Be128>>, iv': Be128)
      requires Keyed(key2) && Valid(beyond)
      requires MasksFor(mask, Poly128(Bbe, key2)) && At(t, iv, start, mask)
      requires KeepsValid(fn) && chunks != [] && AllChunks(chunks)
      requires start + |Flat(chunks)| <= Pow2(128)
      requires Wanted(want, fn, mask, start, Flat(chunks))
      ensures Sizes(out) == Sizes(chunks)
      ensures Flat(out) == want
      ensures Valid(iv') && ValOf(Poly128(Bbe, iv')) == start + |Flat(chunks)| - 1
    {
      hide Tables, MaskValues;
      ghost var n, at := 0, start;
      var t', c := t, 0;
      out, iv' := [], iv;
      while c < |chunks|
        invariant 0 <= c <= |chunks| && |out| == c && n == |Flat(chunks[..c])| <= |want| && (c > 0 ==> n > 0)
        invariant Sizes(out) == Sizes(chunks[..c]) && Flat(out) == want[..n]
        invariant at == start + n - (if c == 0 then 0 else 1) && At(t', iv', at, mask)
      {
        var done;
        done, t', iv', at, n := NextChunk(fn, chunks, c, t', iv', beyond, key2, mask, start, want, out, n, at);
        out := out + [done];
        c := c + 1;
      }
      Whole(chunks, c);
      Whole(want, n);
    }

    /** One chunk, the c-th. */
    method NextChunk(fn: Be128 -> Be128, chunks: seq<seq<Be128>>, c: nat, t: Be128, iv: Be128, beyond: Be128,
                     ghost key2: Be128, ghost mask: nat -> Be128, ghost start: nat, ghost want: seq<Be128>,
                     ghost out: seq<seq<Be128>>, ghost n: nat, ghost at: nat)
      returns (done: seq<Be128>, t': Be128, iv': Be128, ghost at': nat, ghost m: nat)
      requires Keyed(key2) && Valid(beyond) && MasksFor(mask, Poly128(Bbe, key2)) && At(t, iv, at, mask)
      requires KeepsValid(fn) && c < |chunks| && AllChunks(chunks) && start + |Flat(chunks)| <= Pow2(128)
      requires Wanted(want, fn, mask, start, Flat(chunks))
      requires n == |Flat(chunks[..c])| <= |want| && Flat(out) == want[..n] && Sizes(out) == Sizes(chunks[..c])
      requires at == start + n - (if c == 0 then 0 else 1) && (c == 0 ==> n == 0)
      ensures Sizes(out + [done]) == Sizes(chunks[..c + 1]) && m == |Flat(chunks[..c + 1])| <= |want| && m > 0
      ensures Flat(out + [done]) == want[..m]
      ensures at' == start + m - 1 && At(t', iv', at', mask)
    {
      hide Tables, MaskValues;
      FlatSplit(chunks, c);
      ghost var from := start + n;
      m := n + |chunks[c]|;
      WantedSlice(want, fn, mask, start, Flat(chunks), n, m, chunks[c], from);
      done, t', iv', at' := CryptChunk(fn, chunks[c], t, iv, c == 0, beyond, key2, mask, at, from, want[n..m]);
      FlatSnoc(out, done);
      Extend(want, n, m, done);
      SizesSnoc(out, done);
      SizesSnoc(chunks[..c], chunks[c]);
      ExtendOne(chunks, c, chunks[..c], chunks[c]);
    }

    /** The inner loop: the blocks of one step of the walk.  Only the very first block is
        not preceded by a step of the counter. */
    method CryptChunk(fn: Be128 -> Be128, src: seq<Be128>, t: Be128, iv: Be128, first: bool, beyond: Be128,
                      ghost key2: Be128, ghost mask: nat -> Be128, ghost at: nat, ghost start: nat,
                      ghost want: seq<Be128>)
      returns (dst: seq<Be128>, t': Be128, iv': Be128, ghost at': nat)
      requires Keyed(key2) && Valid(beyond)
      requires MasksFor(mask, Poly128(Bbe, key2)) && At(t, iv, at, mask)
      requires KeepsValid(fn) && src != [] && AllBlocks(src)
      requires start == at + (if first then 0 else 1) && start + |src| <= Pow2(128)
      requires Wanted(want, fn, mask, start, src)
      ensures dst == want
      ensures at' == start + |src| - 1 && At(t', iv', at', mask)
    {
      hide Tables, MaskValues;
      t', iv', dst, at' := t, iv, [], at;
      var i := 0;
      while i < |src|
        invariant 0 <= i <= |src| && dst == want[..i]
        invariant at' == start + i - (if first && i == 0 then 0 else 1) && At(t', iv', at', mask)
      {
        var block;
        block, t', iv', at' := CryptBlock(fn, src[i], t', iv', first && i == 0, beyond, key2, mask, at');
        RoundWanted(want, fn, mask, start, src, i, i + 1, at', t', dst, block);
        i, dst := i + 1, dst + [block];
      }
      Whole(want, i);
    }

    /** One block; `first` is the jump into the loop past the step of the counter. */
    method CryptBlock(fn: Be128 -> Be128, p: Be128, t: Be128, iv: Be128, first: bool, beyond: Be128,
                      ghost key2: Be128, ghost mask: nat -> Be128, ghost at: nat)
      returns (block: Be128, t': Be128, iv': Be128, ghost at': nat)
      requires Keyed(key2) && Valid(beyond) && Valid(p) && KeepsValid(fn)
      requires MasksFor(mask, Poly128(Bbe, key2)) && At(t, iv, at, mask)
      requires first || at + 1 < Pow2(128)
      ensures at' == at + (if first then 0 else 1) && At(t', iv', at', mask)
      ensures block == Round(fn, t', p)
    {
      hide Tables, MaskValues;
      t', iv', at' := t, iv, at;
      if !first {
        t', iv' := NextAt(t', iv', beyond, key2, at', mask);
        at' := at' + 1;
      }
      block := Round(fn, t', p);
    }
  }

  /** mask(i) is key2 times i in the field, for every block number i. */
  ghost predicate MasksFor(mask: nat -> Be128, key: Poly)
    requires |key| == 128
  {
    && (forall i: nat :: Valid(mask(i)))
    && MaskValues(mask, key)
  }

  ghost predicate MaskValues(mask: nat -> Be128, key: Poly)
    requires |key| == 128 && forall i: nat :: Valid(mask(i))
  {
    forall i: nat :: Poly128(Bbe, mask(i)) == Tweak(key, i)
  }

  /** The counter stands at i and the mask with it. */
  predicate At(t: Be128, iv: Be128, i: nat, mask: nat -> Be128) {
    Valid(t) && Valid(iv) && ValOf(Poly128(Bbe, iv)) == i && t == mask(i)
  }

  predicate EntryFor(e: Be128, i: nat, key: Poly)
    requires |key| == 128
  {
    Valid(e) && Poly128(Bbe, e) == Mul(Ones(i + 1, 128), key)
  }

  predicate MarkedEntry(cpu: Cpu, e: Be128, i: nat, key: Poly)
    requires |key| == 128 && i < 128 && Real(cpu)
  {
    Valid(e) && Poly128(Bbe, e) == Mul(Marked(cpu, i + 1), key)
  }

  lemma EntryRight(cpu: Cpu, e: Be128, i: nat, key: Poly)
    requires |key| == 128 && i < 128 && Real(cpu) && MarkedEntry(cpu, e, i, key)
    requires !cpu.bigEndian || key == Zero(128)
    ensures EntryFor(e, i, key)
  {
    hide Mul, Marked, Ones, Poly128;
    if cpu.bigEndian {
      MulByZero(Marked(cpu, i + 1));
      MulByZero(Ones(i + 1, 128));
    } else {
      MarkedLittle(cpu, i + 1);
    }
  }

  /** On a big-endian machine the very first step of an even counter goes wrong, whatever
      the key, unless that is zero. */
  lemma BigEndianStep(cpu: Cpu, s: Poly, key: Poly)
    requires Real(cpu) && cpu.bigEndian && |s| == |key| == 128 && !s[0]
    ensures Add(Mul(s, key), Mul(Marked(cpu, 1), key)) == Mul(Succ(s), key) <==> key == Zero(128)
  {
    hide Mul, Marked, Add, Succ, XPow;
    TrailingOnesUnique(s, 0);
    StepExactlyWhen(s, key, Mul(Marked(cpu, 1), key));
    FirstBitMisplaced(cpu, key);
  }

  /** The counter that is all ones: the table of 128 entries is read at 128, and there is
      something that may lie behind it for which the mask comes out wrong. */
  lemma AllOnesCounter(key: Poly)
    requires |key| == 128
    ensures var s := Ones(128, 128);
            TrailingOnes(s) == 128 && exists e: Poly :: |e| == 128 && Add(Mul(s, key), e) != Mul(Succ(s), key)
  {
    var s, zero, one := Ones(128, 128), Zero(128), Ones(1, 128);
    TrailingOnesUnique(s, 128);
    StepExactlyWhen(s, key, zero);
    StepExactlyWhen(s, key, one);
    assert zero[0] != one[0];
    assert Add(Mul(s, key), zero) != Mul(Succ(s), key) || Add(Mul(s, key), one) != Mul(Succ(s), key);
  }

  /** The mask moves with the counter exactly when what is added is key times the bits that change. */
  lemma StepExactlyWhen(s: Poly, key: Poly, e: Poly)
    requires |s| == |key| == |e| == 128
    ensures Add(Mul(s, key), e) == Mul(Succ(s), key) <==> e == Mul(Ones(TrailingOnes(s) + 1, 128), key)
  {
    var d, s' := Ones(TrailingOnes(s) + 1, 128), Succ(s);
    SuccIsAdd(s, d, s');
    MulAdd(s, d, s', key);
    AddCancel(Mul(s, key), e, Mul(d, key));
  }

  lemma SuccIsAdd(s: Poly, d: Poly, s': Poly)
    requires |s| == 128 && d == Ones(TrailingOnes(s) + 1, 128) && s' == Succ(s)
    ensures s' == Add(s, d)
  {
    SuccChanges(s);
    AddUndo(s, s', d);
  }

  lemma AddUndo(u: Poly, v: Poly, w: Poly)
    requires |u| == |v| && Add(u, v) == w
    ensures v == Add(u, w)
  {
    forall i | 0 <= i < |u| ensures Add(u, w)[i] == v[i] { assert Add(u, v)[i] == w[i]; }
  }

  lemma MulAdd(s: Poly, d: Poly, s': Poly, key: Poly)
    requires |s| == |d| == |key| == 128 && s' == Add(s, d)
    ensures Mul(s', key) == Add(Mul(s, key), Mul(d, key))
  {
    MulSumAdd(s, d, key);
    MulSumIsMul(s, key);
    MulSumIsMul(d, key);
    MulSumIsMul(s', key);
  }

  lemma AddCancel(u: Poly, v: Poly, w: Poly)
    requires |u| == |v| == |w|
    ensures Add(u, v) == Add(u, w) <==> v == w
  {
    if Add(u, v) == Add(u, w) {
      forall i | 0 <= i < |u| ensures v[i] == w[i] { assert Add(u, v)[i] == Add(u, w)[i]; }
    }
  }

  // ---- the mode ----

  /** The mask of block number i: key2 times i in the field. */
  function Tweak(key: Poly, i: nat): (t: Poly)
    requires |key| == 128
    ensures |t| == 128
  {
    Mul(BitsOf(i, 128), key)
  }

  /** There is such a mask for every key. */
  function MaskOf(key: Poly): (mask: nat -> Be128)
    requires |key| == 128
    ensures MasksFor(mask, key)
  {
    (i: nat) => Block(Tweak(key, i))
  }

  function Block(p: Poly): (v: Be128)
    requires |p| == 128
    ensures Valid(v) && Poly128(Bbe, v) == p
  {
    assert p[..64] + p[64..] == p;
    Be128(p[64..], p[..64])
  }

  ghost predicate KeepsValid(fn: Be128 -> Be128) {
    forall v :: Valid(v) ==> Valid(fn(v))
  }

  predicate AllBlocks(s: seq<Be128>) {
    forall i :: 0 <= i < |s| ==> Valid(s[i])
  }

  predicate AllChunks(chunks: seq<seq<Be128>>) {
    forall c :: 0 <= c < |chunks| ==> chunks[c] != [] && AllBlocks(chunks[c])
  }

  function Flat(chunks: seq<seq<Be128>>): (s: seq<Be128>)
    ensures AllChunks(chunks) ==> AllBlocks(s)
  {
    if chunks == [] then [] else chunks[0] + Flat(chunks[1..])
  }

  /** lrw_round. */
  function Round(fn: Be128 -> Be128, t: Be128, p: Be128): (r: Be128)
    requires Valid(t) && Valid(p) && KeepsValid(fn)
    ensures Valid(r)
  {
    BlockXor(fn(BlockXor(t, p)), t)
  }

  /** The whole message at once, block j under mask(start + j). */
  ghost function Masked(fn: Be128 -> Be128, mask: nat -> Be128, start: nat, src: seq<Be128>): (dst: seq<Be128>)
    requires AllBlocks(src) && KeepsValid(fn)
    requires forall i: nat :: Valid(mask(i))
    ensures |dst| == |src| && AllBlocks(dst)
  {
    seq(|src|, j requires 0 <= j < |src| => Round(fn, mask(start + j), src[j]))
  }

  // The same, one block at a time.

  ghost predicate WantedAt(want: seq<Be128>, fn: Be128 -> Be128, mask: nat -> Be128, start: nat, src: seq<Be128>,
                           j: nat)
    requires AllBlocks(src) && KeepsValid(fn) && (forall i: nat :: Valid(mask(i))) && j < |src| == |want|
  {
    want[j] == Round(fn, mask(start + j), src[j])
  }

  ghost predicate Wanted(want: seq<Be128>, fn: Be128 -> Be128, mask: nat -> Be128, start: nat, src: seq<Be128>)
    requires AllBlocks(src) && KeepsValid(fn) && (forall i: nat :: Valid(mask(i)))
  {
    |want| == |src| && forall j :: 0 <= j < |src| ==> WantedAt(want, fn, mask, start, src, j)
  }

  lemma MaskedWanted(fn: Be128 -> Be128, mask: nat -> Be128, start: nat, src: seq<Be128>)
    requires AllBlocks(src) && KeepsValid(fn) && (forall i: nat :: Valid(mask(i)))
    ensures Wanted(Masked(fn, mask, start, src), fn, mask, start, src)
  {
  }

  lemma RoundWanted(want: seq<Be128>, fn: Be128 -> Be128, mask: nat -> Be128, start: nat, src: seq<Be128>,
                    i: nat, i': nat, at: nat, t: Be128, dst: seq<Be128>, block: Be128)
    requires AllBlocks(src) && KeepsValid(fn) && (forall i: nat :: Valid(mask(i)))
    requires Wanted(want, fn, mask, start, src)
    requires i < |src| && i' == i + 1 && at == start + i && t == mask(at) && block == Round(fn, t, src[i])
    requires dst == want[..i]
    ensures dst + [block] == want[..i']
  {
    assert WantedAt(want, fn, mask, start, src, i);
    ExtendOne(want, i, dst, block);
  }

  lemma WantedSlice(want: seq<Be128>, fn: Be128 -> Be128, mask: nat -> Be128, start: nat, flat: seq<Be128>,
                    n: nat, m: nat, s: seq<Be128>, from: nat)
    requires AllBlocks(flat) && KeepsValid(fn) && (forall i: nat :: Valid(mask(i)))
    requires Wanted(want, fn, mask, start, flat)
    requires n <= m <= |flat| && s == flat[n..m] && from == start + n
    ensures Wanted(want[n..m], fn, mask, from, s)
  {
    forall j | 0 <= j < |s| ensures WantedAt(want[n..m], fn, mask, from, s, j) {
      assert WantedAt(want, fn, mask, start, flat, n + j);
      assert from + j == start + (n + j);
    }
  }

  // Sequences of anything.

  function Sizes<T>(s: seq<seq<T>>): (r: seq<nat>) {
    if s == [] then [] else Sizes(s[..|s| - 1]) + [|s[|s| - 1]|]
  }

  lemma SizesSnoc<T>(s: seq<seq<T>>, e: seq<T>)
    ensures Sizes(s + [e]) == Sizes(s) + [|e|]
  {
    assert (s + [e])[..|s|] == s;
  }

  lemma Same<T>(s: seq<T>, t: seq<T>)
    requires |s| == |t| && forall i :: 0 <= i < |s| ==> s[i] == t[i]
    ensures s == t
  {
  }

  lemma Extend<T>(want: seq<T>, n: nat, m: nat, s: seq<T>)
    requires n <= m <= |want| && s == want[n..m]
    ensures want[..n] + s == want[..m]
  {
  }

  lemma ExtendOne<T>(want: seq<T>, n: nat, s: seq<T>, e: T)
    requires n < |want| && s == want[..n] && e == want[n]
    ensures s + [e] == want[..n + 1]
  {
  }

  lemma Whole<T>(s: seq<T>, n: nat)
    requires n == |s|
    ensures s[..n] == s
  {
  }

  lemma {:induction false} FlatSnoc(chunks: seq<seq<Be128>>, c: seq<Be128>)
    ensures Flat(chunks + [c]) == Flat(chunks) + c
    decreases |chunks|
  {
    if chunks == [] {
      assert chunks + [c] == [c] && Flat([c]) == c + Flat([]);
    } else {
      FlatSnoc(chunks[1..], c);
      assert (chunks + [c])[1..] == chunks[1..] + [c];
    }
  }

  /** Where chunk c lies in the message. */
  lemma {:induction false} FlatSplit(chunks: seq<seq<Be128>>, c: nat)
    requires c < |chunks|
    ensures |Flat(chunks[..c])| + |chunks[c]| <= |Flat(chunks)|
    ensures chunks[c] == Flat(chunks)[|Flat(chunks[..c])|..|Flat(chunks[..c])| + |chunks[c]|]
    ensures |Flat(chunks[..c + 1])| == |Flat(chunks[..c])| + |chunks[c]|
  {
    assert chunks[..c] + [chunks[c]] == chunks[..c + 1];
    FlatSnoc(chunks[..c], chunks[c]);
    FlatConcat(chunks[..c + 1], chunks[c + 1..]);
    assert chunks[..c + 1] + chunks[c + 1..] == chunks;
  }

  lemma {:induction false} FlatConcat(s: seq<seq<Be128>>, t: seq<seq<Be128>>)
    ensures Flat(s + t) == Flat(s) + Flat(t)
    decreases |s|
  {
    if s == [] {
      assert s + t == t;
    } else {
      FlatConcat(s[1..], t);
      assert (s + t)[1..] == s[1..] + t;
    }
  }

  lemma ExactBefore(iv: Be128, key: Poly)
    requires Valid(iv) && |key| == 128 && ValOf(Poly128(Bbe, iv)) + 1 < Pow2(128)
    ensures Tweak(key, ValOf(Poly128(Bbe, iv))) == Mul(Poly128(Bbe, iv), key)
    ensures TrailingOnes(Poly128(Bbe, iv)) < 128
    ensures ValOf(Poly128(Bbe, Inc(iv))) == ValOf(Poly128(Bbe, iv)) + 1
  {
    ValOfBits(Poly128(Bbe, iv));
    SuccValue(Poly128(Bbe, iv));
    IncIsSucc(iv);
  }

  lemma ExactAfter(iv: Be128, key: Poly)
    requires Valid(iv) && |key| == 128
    ensures Tweak(key, ValOf(Poly128(Bbe, iv))) == Mul(Poly128(Bbe, iv), key)
  {
    ValOfBits(Poly128(Bbe, iv));
  }

  /** Decryption undoes encryption, for every key, start and message. */
  lemma DecryptUndoesEncrypt(enc: Be128 -> Be128, dec: Be128 -> Be128, mask: nat -> Be128, start: nat, src: seq<Be128>)
    requires AllBlocks(src) && (forall i: nat :: Valid(mask(i)))
    requires KeepsValid(enc) && KeepsValid(dec) && (forall v :: Valid(v) ==> dec(enc(v)) == v)
    ensures Masked(dec, mask, start, Masked(enc, mask, start, src)) == src
  {
    var mid := Masked(enc, mask, start, src);
    MaskedWanted(enc, mask, start, src);
    MaskedWanted(dec, mask, start, mid);
    Undone(enc, dec, mask, start, src, mid, Masked(dec, mask, start, mid));
  }

  lemma Undone(enc: Be128 -> Be128, dec: Be128 -> Be128, mask: nat -> Be128, start: nat,
               src: seq<Be128>, mid: seq<Be128>, back: seq<Be128>)
    requires AllBlocks(src) && AllBlocks(mid) && (forall i: nat :: Valid(mask(i)))
    requires KeepsValid(enc) && KeepsValid(dec) && (forall v :: Valid(v) ==> dec(enc(v)) == v)
    requires Wanted(mid, enc, mask, start, src) && Wanted(back, dec, mask, start, mid)
    ensures back == src
  {
    forall j | 0 <= j < |src| ensures back[j] == src[j] {
      assert WantedAt(mid, enc, mask, start, src, j) && WantedAt(back, dec, mask, start, mid, j);
      RoundUndone(enc, dec, mask(start + j), src[j], mid[j]);
    }
    Same(back, src);
  }

  lemma RoundUndone(enc: Be128 -> Be128, dec: Be128 -> Be128, t: Be128, p: Be128, q: Be128)
    requires Valid(t) && Valid(p) && KeepsValid(enc) && q == Round(enc, t, p)
    requires KeepsValid(dec) && (forall v :: Valid(v) ==> dec(enc(v)) == v)
    ensures Round(dec, t, q) == p
  {
    var x := BlockXor(t, p);
    XorTwice(t, enc(x));
    XorTwice(t, p);
  }

  lemma XorTwice(t: Be128, v: Be128)
    requires Valid(t) && Valid(v)
    ensures BlockXor(t, BlockXor(v, t)) == v && BlockXor(BlockXor(t, v), t) == v
  {
  }
}
