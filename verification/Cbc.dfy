/**
 The CBC routines on one stretch of memory: from a source to a destination, and in place.
 Source, destination and IV are addresses in one memory; both forms compute the mode of
 module CbcMode and leave the last block of ciphertext as the IV.
 */
module Cbc {
  import opened Arithmetic
  import opened CbcMode

  // ---- memory ----

  /** Nothing but [a, a + n) and [b, b + k) has changed. */
  predicate Only(m: Bytes, m': Bytes, a: nat, n: nat, b: nat, k: nat) {
    |m'| == |m| && forall i :: 0 <= i < |m| && !(a <= i < a + n) && !(b <= i < b + k) ==> m'[i] == m[i]
  }

  predicate Disjoint(a: nat, n: nat, b: nat, k: nat) {
    a + n <= b || b + k <= a
  }

  lemma Kept(m: Bytes, m': Bytes, a: nat, n: nat, b: nat, k: nat, c: nat, l: nat)
    requires Only(m, m', a, n, b, k) && c + l <= |m|
    requires Disjoint(a, n, c, l) && Disjoint(b, k, c, l)
    ensures m'[c..c + l] == m[c..c + l]
  {
  }

  lemma KeptTo(m: Bytes, m': Bytes, a: nat, n: nat, x: nat, y: nat)
    requires Only(m, m', a, n, a, n) && x <= y <= |m| && (y <= a || a + n <= x)
    ensures m'[x..y] == m[x..y]
  {
  }

  lemma Joined(m: Bytes, a: nat, n: nat, k: nat, x: nat, y: nat)
    requires x == a + n && y == x + k && y <= |m|
    ensures m[a..y] == m[a..x] + m[x..y]
  {
  }

  lemma SubSlice(m: Bytes, a: nat, n: nat, i: nat, j: nat)
    requires a + n <= |m| && i <= j <= n
    ensures m[a..a + n][i..j] == m[a + i..a + j]
  {
    var l, r := m[a..a + n][i..j], m[a + i..a + j];
    forall k | 0 <= k < |l| ensures l[k] == r[k] {}
  }

  /** memcpy. */
  method Copy(mem: array<Byte>, dst: nat, src: nat, n: nat)
    requires dst + n <= mem.Length && src + n <= mem.Length
    modifies mem
    ensures mem[dst..dst + n] == old(mem[src..src + n])
    ensures Only(old(mem[..]), mem[..], dst, n, dst, n)
  {
    forall i | 0 <= i < n { mem[dst + i] := mem[src + i]; }
  }

  /** The first i bytes at a have v added to them. */
  predicate XorTo(m: Bytes, m': Bytes, a: nat, v: Bytes, i: nat) {
    && |m'| == |m| && a + |v| <= |m| && i <= |v|
    && (forall k :: a <= k < a + i ==> m'[k] == m[k] ^ v[k - a])
    && (forall k :: 0 <= k < |m| && !(a <= k < a + i) ==> m'[k] == m[k])
  }

  lemma XorNext(m: Bytes, m1: Bytes, m2: Bytes, a: nat, v: Bytes, i: nat)
    requires XorTo(m, m1, a, v, i) && i < |v| && m2 == m1[a + i := m1[a + i] ^ v[i]]
    ensures XorTo(m, m2, a, v, i + 1)
  {
  }

  lemma XorDone(m: Bytes, m': Bytes, a: nat, v: Bytes)
    requires XorTo(m, m', a, v, |v|)
    ensures m'[a..a + |v|] == Xor(m[a..a + |v|], v) && Only(m, m', a, |v|, a, |v|)
  {
  }

  /** xor_byte: a ^= b. */
  method XorInto(mem: array<Byte>, a: nat, b: nat, n: nat)
    requires a + n <= mem.Length && b + n <= mem.Length && Disjoint(a, n, b, n)
    modifies mem
    ensures mem[a..a + n] == Xor(old(mem[a..a + n]), old(mem[b..b + n]))
    ensures Only(old(mem[..]), mem[..], a, n, a, n)
  {
    ghost var m, v := mem[..], mem[b..b + n];
    var i := 0;
    while i < n
      invariant 0 <= i <= n && XorTo(m, mem[..], a, v, i)
    {
      ghost var m1 := mem[..];
      assert mem[b + i] == m1[b + i] == v[i];
      mem[a + i] := mem[a + i] ^ mem[b + i];
      XorNext(m, m1, mem[..], a, v, i);
      i := i + 1;
    }
    XorDone(m, mem[..], a, v);
  }

  /** The cipher, from src to dst; the two may be the same. */
  method Apply(fn: Bytes -> Bytes, bs: nat, mem: array<Byte>, dst: nat, src: nat)
    requires OnBlocks(fn, bs) && dst + bs <= mem.Length && src + bs <= mem.Length
    modifies mem
    ensures mem[dst..dst + bs] == fn(old(mem[src..src + bs]))
    ensures Only(old(mem[..]), mem[..], dst, bs, dst, bs)
  {
    var out := fn(mem[src..src + bs]);
    forall i | 0 <= i < bs { mem[dst + i] := out[i]; }
  }

  // ---- one block ----

  /** The body of the loop of crypto_cbc_encrypt_segment. */
  method EncryptBlock(fn: Bytes -> Bytes, bs: nat, mem: array<Byte>, dst: nat, src: nat, iv: nat)
    requires OnBlocks(fn, bs)
    requires dst + bs <= mem.Length && src + bs <= mem.Length && iv + bs <= mem.Length
    requires Disjoint(dst, bs, iv, bs) && Disjoint(src, bs, iv, bs)
    modifies mem
    ensures mem[dst..dst + bs] == BlockOut(Enc, fn, bs, old(mem[iv..iv + bs]), old(mem[src..src + bs]))
    ensures mem[iv..iv + bs] == BlockIv(Enc, fn, bs, old(mem[iv..iv + bs]), old(mem[src..src + bs]))
    ensures Only(old(mem[..]), mem[..], dst, bs, iv, bs)
  {
    XorInto(mem, iv, src, bs);
    Apply(fn, bs, mem, dst, iv);
    Copy(mem, iv, dst, bs);
  }

  /** The body of the loop of crypto_cbc_encrypt_inplace; `iv` is where the last block is. */
  method EncryptBlockInPlace(fn: Bytes -> Bytes, bs: nat, mem: array<Byte>, src: nat, iv: nat)
    requires OnBlocks(fn, bs) && src + bs <= mem.Length && iv + bs <= mem.Length && Disjoint(src, bs, iv, bs)
    modifies mem
    ensures mem[src..src + bs] == BlockOut(Enc, fn, bs, old(mem[iv..iv + bs]), old(mem[src..src + bs]))
    ensures Only(old(mem[..]), mem[..], src, bs, src, bs)
  {
    XorLaws(mem[src..src + bs], mem[iv..iv + bs]);
    XorInto(mem, src, iv, bs);
    Apply(fn, bs, mem, src, src);
  }

  /** The body of the loop of crypto_cbc_decrypt_segment. */
  method DecryptBlock(fn: Bytes -> Bytes, bs: nat, mem: array<Byte>, dst: nat, src: nat, iv: nat)
    requires OnBlocks(fn, bs)
    requires dst + bs <= mem.Length && src + bs <= mem.Length && iv + bs <= mem.Length
    requires Disjoint(dst, bs, iv, bs)
    modifies mem
    ensures mem[dst..dst + bs] == BlockOut(Dec, fn, bs, old(mem[iv..iv + bs]), old(mem[src..src + bs]))
    ensures Only(old(mem[..]), mem[..], dst, bs, dst, bs)
  {
    Apply(fn, bs, mem, dst, src);
    XorInto(mem, dst, iv, bs);
  }

  // ---- a stretch ----

  /** What a routine does to memory: `out` at dst and a new IV, nothing else. */
  predicate Did(m: Bytes, m': Bytes, dst: nat, n: nat, iv: nat, bs: nat, out: Bytes, next: Bytes)
    requires dst + n <= |m| && iv + bs <= |m|
  {
    && Only(m, m', dst, n, iv, bs)
    && m'[dst..dst + n] == out
    && m'[iv..iv + bs] == next
  }

  predicate Ranges(len: nat, dst: nat, src: nat, n: nat, iv: nat, bs: nat) {
    && dst + n <= len && src + n <= len && iv + bs <= len && 0 < bs <= n
    && (src == dst || Disjoint(src, n, dst, n))
    && Disjoint(src, n, iv, bs) && Disjoint(dst, n, iv, bs)
  }

  /** The first k bytes have been done, and the IV is the one to go on with. */
  ghost predicate SoFar(mode: Mode, fn: Bytes -> Bytes, bs: nat, m0: Bytes, m: Bytes, dst: nat, k: nat, iv: nat,
                        data: Bytes, iv0: Bytes) {
    && OnBlocks(fn, bs) && |iv0| == bs && |m| == |m0| && k <= |data| && dst + k <= |m0| && iv + bs <= |m0| &&
       Multiple(k, bs)
    && DoneSoFar(mode, fn, bs, m0, m, dst, k, iv, data, iv0)
  }

  ghost predicate DoneSoFar(mode: Mode, fn: Bytes -> Bytes, bs: nat, m0: Bytes, m: Bytes, dst: nat, k: nat, iv: nat,
                            data: Bytes, iv0: Bytes)
    requires OnBlocks(fn, bs) && |iv0| == bs && k <= |data| && dst + k <= |m0| && iv + bs <= |m0| && Multiple(k, bs)
  {
    Did(m0, m, dst, k, iv, bs, Out(mode, fn, bs, iv0, data[..k]), NextIv(mode, fn, bs, iv0, data[..k]))
  }

  lemma StartSoFar(mode: Mode, fn: Bytes -> Bytes, bs: nat, m0: Bytes, dst: nat, iv: nat, data: Bytes, iv0: Bytes)
    requires OnBlocks(fn, bs) && dst <= |m0| && iv + bs <= |m0| && iv0 == m0[iv..iv + bs]
    ensures SoFar(mode, fn, bs, m0, m0, dst, 0, iv, data, iv0)
  {
    assert data[..0] == [] && m0[dst..dst] == [];
    assert Did(m0, m0, dst, 0, iv, bs, Out(mode, fn, bs, iv0, data[..0]), NextIv(mode, fn, bs, iv0, data[..0]));
  }

  /** One stretch after another. */
  lemma MoreMemory(m0: Bytes, m1: Bytes, m2: Bytes, dst: nat, k: nat, x: nat, y: nat, iv: nat, bs: nat, out: Bytes,
                   next: Bytes, block: Bytes, next': Bytes)
    requires dst + k <= |m0| && iv + bs <= |m0| && Did(m0, m1, dst, k, iv, bs, out, next)
    requires x == dst + k && y == x + bs <= |m0| && Disjoint(dst, k + bs, iv, bs)
    requires Only(m1, m2, x, bs, iv, bs) && m2[x..y] == block && m2[iv..iv + bs] == next'
    ensures Did(m0, m2, dst, k + bs, iv, bs, out + block, next')
  {
    Kept(m1, m2, x, bs, iv, bs, dst, k);
    Joined(m2, dst, k, bs, x, y);
  }

  /** What one more block does. */
  lemma MoreDone(mode: Mode, fn: Bytes -> Bytes, bs: nat, m0: Bytes, m1: Bytes, m2: Bytes,
                 dst: nat, iv: nat, k: nat, x: nat, y: nat, data: Bytes, iv0: Bytes, block: Bytes)
    requires SoFar(mode, fn, bs, m0, m1, dst, k, iv, data, iv0) && k + bs <= |data| && block == data[k..k + bs]
    requires x == dst + k && y == x + bs <= |m0| && Disjoint(dst, k + bs, iv, bs)
    requires Only(m1, m2, x, bs, iv, bs)
    requires m2[x..y] == BlockOut(mode, fn, bs, m1[iv..iv + bs], block)
    requires m2[iv..iv + bs] == BlockIv(mode, fn, bs, m1[iv..iv + bs], block)
    ensures SoFar(mode, fn, bs, m0, m2, dst, k + bs, iv, data, iv0)
  {
    assert data[..k] + block == data[..k + bs];
    var v := NextIv(mode, fn, bs, iv0, data[..k]);
    OutSnoc(mode, fn, bs, iv0, data[..k], block);
    MoreMemory(m0, m1, m2, dst, k, x, y, iv, bs, Out(mode, fn, bs, iv0, data[..k]), v,
               BlockOut(mode, fn, bs, v, block), BlockIv(mode, fn, bs, v, block));
  }

  /** Away from what has been written, memory is as it was. */
  lemma SourceKept(mode: Mode, fn: Bytes -> Bytes, bs: nat, m0: Bytes, m: Bytes, dst: nat, k: nat, iv: nat,
                   data: Bytes, iv0: Bytes,
                   a: nat, n: nat)
    requires SoFar(mode, fn, bs, m0, m, dst, k, iv, data, iv0) && a + n <= |m0|
    requires Disjoint(dst, k, a, n) && Disjoint(iv, bs, a, n)
    ensures m[a..a + n] == m0[a..a + n]
  {
    Kept(m0, m, dst, k, iv, bs, a, n);
  }

  method EncryptNext(fn: Bytes -> Bytes, bs: nat, mem: array<Byte>, dst: nat, src: nat, n: nat, iv: nat, k: nat,
                     ghost m0: Bytes, ghost data: Bytes, ghost iv0: Bytes)
    requires Ranges(mem.Length, dst, src, n, iv, bs) && k + bs <= n && |m0| == mem.Length &&
             data == m0[src..src + n] && src != dst
    requires SoFar(Enc, fn, bs, m0, mem[..], dst, k, iv, data, iv0)
    modifies mem
    ensures SoFar(Enc, fn, bs, m0, mem[..], dst, k + bs, iv, data, iv0)
  {
    hide DoneSoFar;
    ghost var m1 := mem[..];
    SubSlice(m0, src, n, k, k + bs);
    SourceKept(Enc, fn, bs, m0, m1, dst, k, iv, data, iv0, src + k, bs);
    EncryptBlock(fn, bs, mem, dst + k, src + k, iv);
    MoreDone(Enc, fn, bs, m0, m1, mem[..], dst, iv, k, dst + k, dst + k + bs, data, iv0, data[k..k + bs]);
  }

  /** What all four routines promise. */
  ghost predicate DidMode(mode: Mode, fn: Bytes -> Bytes, bs: nat, m: Bytes, m': Bytes, dst: nat, src: nat, q: nat,
                          iv: nat)
    requires OnBlocks(fn, bs) && dst + q <= |m| && src + q <= |m| && iv + bs <= |m| && Multiple(q, bs)
  {
    Did(m, m', dst, q, iv, bs, Out(mode, fn, bs, m[iv..iv + bs], m[src..src + q]),
        NextIv(mode, fn, bs, m[iv..iv + bs], m[src..src + q]))
  }

  lemma Finished(mode: Mode, fn: Bytes -> Bytes, bs: nat, m0: Bytes, m: Bytes, dst: nat, src: nat, n: nat, iv: nat,
                 k: nat, left: nat,
                 data: Bytes, iv0: Bytes)
    requires SoFar(mode, fn, bs, m0, m, dst, k, iv, data, iv0) && k + left == n && left < bs
    requires dst + n <= |m0| && src + n <= |m0| && data == m0[src..src + n] && iv0 == m0[iv..iv + bs]
    ensures left == n - Whole(n, bs) && DidMode(mode, fn, bs, m0, m, dst, src, Whole(n, bs), iv)
  {
    WholeUnique(n, bs, k);
    assert data[..k] == m0[src..src + k];
  }

  /** crypto_cbc_encrypt_segment: returns the bytes that do not fill a block. */
  method EncryptSegment(fn: Bytes -> Bytes, bs: nat, mem: array<Byte>, dst: nat, src: nat, n: nat, iv: nat)
    returns (left: nat)
    requires OnBlocks(fn, bs) && Ranges(mem.Length, dst, src, n, iv, bs) && src != dst
    modifies mem
    ensures left == n - Whole(n, bs)
    ensures DidMode(Enc, fn, bs, old(mem[..]), mem[..], dst, src, Whole(n, bs), iv)
  {
    hide DoneSoFar;
    ghost var m0 := mem[..];
    ghost var iv0, data := m0[iv..iv + bs], m0[src..src + n];
    left := n;
    StartSoFar(Enc, fn, bs, m0, dst, iv, data, iv0);
    while left >= bs
      invariant 0 <= left <= n && SoFar(Enc, fn, bs, m0, mem[..], dst, n - left, iv, data, iv0)
    {
      EncryptNext(fn, bs, mem, dst, src, n, iv, n - left, m0, data, iv0);
      left := left - bs;
    }
    Finished(Enc, fn, bs, m0, mem[..], dst, src, n, iv, n - left, left, data, iv0);
  }

  // ---- the other three routines ----

  /** `out` at dst, nothing else. */
  predicate DidOut(m: Bytes, m': Bytes, dst: nat, n: nat, out: Bytes)
    requires dst + n <= |m|
  {
    Only(m, m', dst, n, dst, n) && m'[dst..dst + n] == out
  }

  /** The first k bytes have been done; the IV to go on with is `v`. */
  ghost predicate OutSoFar(mode: Mode, fn: Bytes -> Bytes, bs: nat, m0: Bytes, m: Bytes, dst: nat, k: nat,
                           data: Bytes, iv0: Bytes, v: Bytes) {
    && OnBlocks(fn, bs) && |iv0| == |v| == bs && |m| == |m0| && k <= |data| && dst + k <= |m0| && Multiple(k, bs)
    && OutDone(mode, fn, bs, m0, m, dst, k, data, iv0, v)
  }

  ghost predicate OutDone(mode: Mode, fn: Bytes -> Bytes, bs: nat, m0: Bytes, m: Bytes, dst: nat, k: nat, data: Bytes,
                          iv0: Bytes, v: Bytes)
    requires OnBlocks(fn, bs) && |iv0| == bs && k <= |data| && dst + k <= |m0| && Multiple(k, bs)
  {
    DidOut(m0, m, dst, k, Out(mode, fn, bs, iv0, data[..k])) && v == NextIv(mode, fn, bs, iv0, data[..k])
  }

  lemma StartOutSoFar(mode: Mode, fn: Bytes -> Bytes, bs: nat, m0: Bytes, dst: nat, data: Bytes, iv0: Bytes)
    requires OnBlocks(fn, bs) && dst <= |m0| && |iv0| == bs
    ensures OutSoFar(mode, fn, bs, m0, m0, dst, 0, data, iv0, iv0)
  {
    assert data[..0] == [] && m0[dst..dst] == [];
    assert DidOut(m0, m0, dst, 0, Out(mode, fn, bs, iv0, data[..0])) && iv0 == NextIv(mode, fn, bs, iv0, data[..0]);
  }

  lemma MoreOutMemory(m0: Bytes, m1: Bytes, m2: Bytes, dst: nat, k: nat, x: nat, bs: nat, out: Bytes, block: Bytes)
    requires dst + k <= |m0| && DidOut(m0, m1, dst, k, out) && x == dst + k && x + bs <= |m0| &&
             DidOut(m1, m2, x, bs, block)
    ensures DidOut(m0, m2, dst, k + bs, out + block)
  {
    KeptTo(m1, m2, x, bs, dst, x);
    Joined(m2, dst, k, bs, x, x + bs);
  }

  lemma MoreOut(mode: Mode, fn: Bytes -> Bytes, bs: nat, m0: Bytes, m1: Bytes, m2: Bytes,
                dst: nat, k: nat, x: nat, data: Bytes, iv0: Bytes, v: Bytes, block: Bytes)
    requires OutSoFar(mode, fn, bs, m0, m1, dst, k, data, iv0, v) && k + bs <= |data| && block == data[k..k + bs]
    requires x == dst + k && x + bs <= |m0| && DidOut(m1, m2, x, bs, BlockOut(mode, fn, bs, v, block))
    ensures OutSoFar(mode, fn, bs, m0, m2, dst, k + bs, data, iv0, BlockIv(mode, fn, bs, v, block))
  {
    assert data[..k] + block == data[..k + bs];
    OutSnoc(mode, fn, bs, iv0, data[..k], block);
    MoreOutMemory(m0, m1, m2, dst, k, x, bs, Out(mode, fn, bs, iv0, data[..k]), BlockOut(mode, fn, bs, v, block));
  }

  lemma OutSourceKept(mode: Mode, fn: Bytes -> Bytes, bs: nat, m0: Bytes, m: Bytes, dst: nat, k: nat, data: Bytes,
                      iv0: Bytes, v: Bytes,
                      a: nat, n: nat)
    requires OutSoFar(mode, fn, bs, m0, m, dst, k, data, iv0, v) && a + n <= |m0| && Disjoint(dst, k, a, n)
    ensures m[a..a + n] == m0[a..a + n]
  {
    Kept(m0, m, dst, k, dst, k, a, n);
  }

  /** The IV is written last. */
  lemma IvLast(mode: Mode, fn: Bytes -> Bytes, bs: nat, m0: Bytes, m1: Bytes, m2: Bytes, dst: nat, k: nat, iv: nat,
               data: Bytes, iv0: Bytes, v: Bytes)
    requires OutSoFar(mode, fn, bs, m0, m1, dst, k, data, iv0, v) && iv + bs <= |m0| && Disjoint(dst, k, iv, bs)
    requires DidOut(m1, m2, iv, bs, v)
    ensures SoFar(mode, fn, bs, m0, m2, dst, k, iv, data, iv0)
  {
    Kept(m1, m2, iv, bs, iv, bs, dst, k);
  }

  method EncryptNextInPlace(fn: Bytes -> Bytes, bs: nat, mem: array<Byte>, src: nat, n: nat, p: nat, k: nat,
                            ghost m0: Bytes, ghost data: Bytes, ghost iv0: Bytes) returns (p': nat)
    requires src + n <= mem.Length && p + bs <= mem.Length && k + bs <= n && |m0| == mem.Length
    requires data == m0[src..src + n] && Disjoint(src + k, bs, p, bs)
    requires OutSoFar(Enc, fn, bs, m0, mem[..], src, k, data, iv0, mem[p..p + bs])
    modifies mem
    ensures p' == src + k && OutSoFar(Enc, fn, bs, m0, mem[..], src, k + bs, data, iv0, mem[p'..p' + bs])
  {
    hide OutDone;
    ghost var m1, v := mem[..], mem[p..p + bs];
    p' := src + k;
    SubSlice(m0, src, n, k, k + bs);
    OutSourceKept(Enc, fn, bs, m0, m1, src, k, data, iv0, v, p', bs);
    EncryptBlockInPlace(fn, bs, mem, p', p);
    MoreOut(Enc, fn, bs, m0, m1, mem[..], src, k, p', data, iv0, v, data[k..k + bs]);
  }

  /** crypto_cbc_encrypt_inplace. */
  method EncryptInPlace(fn: Bytes -> Bytes, bs: nat, mem: array<Byte>, src: nat, n: nat, iv: nat) returns (left: nat)
    requires OnBlocks(fn, bs) && Ranges(mem.Length, src, src, n, iv, bs)
    modifies mem
    ensures left == n - Whole(n, bs)
    ensures DidMode(Enc, fn, bs, old(mem[..]), mem[..], src, src, Whole(n, bs), iv)
  {
    hide OutDone, Did, DidMode, Only, Out, NextIv;
    ghost var m0 := mem[..];
    ghost var iv0, data := m0[iv..iv + bs], m0[src..src + n];
    left := n;
    var p := iv;
    StartOutSoFar(Enc, fn, bs, m0, src, data, iv0);
    while left >= bs
      invariant 0 <= left <= n && p == (if left == n then iv else src + (n - left) - bs) &&
                (left == n || n - left >= bs)
      invariant OutSoFar(Enc, fn, bs, m0, mem[..], src, n - left, data, iv0, mem[p..p + bs])
    {
      p := EncryptNextInPlace(fn, bs, mem, src, n, p, n - left, m0, data, iv0);
      left := left - bs;
    }
    ghost var m1 := mem[..];
    Copy(mem, iv, p, bs);
    IvLast(Enc, fn, bs, m0, m1, mem[..], src, n - left, iv, data, iv0, m1[p..p + bs]);
    Finished(Enc, fn, bs, m0, mem[..], src, src, n, iv, n - left, left, data, iv0);
  }

  method DecryptNext(fn: Bytes -> Bytes, bs: nat, mem: array<Byte>, dst: nat, src: nat, n: nat, p: nat, k: nat,
                     ghost m0: Bytes, ghost data: Bytes, ghost iv0: Bytes) returns (p': nat)
    requires dst + n <= mem.Length && src + n <= mem.Length && p + bs <= mem.Length && k + bs <= n && |m0| == mem.Length
    requires Disjoint(src, n, dst, n) && Disjoint(p, bs, dst, n) && data == m0[src..src + n]
    requires OutSoFar(Dec, fn, bs, m0, mem[..], dst, k, data, iv0, m0[p..p + bs])
    modifies mem
    ensures p' == src + k && OutSoFar(Dec, fn, bs, m0, mem[..], dst, k + bs, data, iv0, m0[p'..p' + bs])
  {
    hide OutDone;
    ghost var m1 := mem[..];
    p' := src + k;
    DecryptBlock(fn, bs, mem, dst + k, p', p);
    DecryptedNext(fn, bs, m0, m1, mem[..], dst, src, n, p, p', k, data, iv0);
  }

  lemma DecryptedNext(fn: Bytes -> Bytes, bs: nat, m0: Bytes, m1: Bytes, m2: Bytes, dst: nat, src: nat, n: nat,
                      p: nat, p': nat, k: nat,
                      data: Bytes, iv0: Bytes)
    requires dst + n <= |m0| && src + n <= |m0| && p + bs <= |m0| && k + bs <= n && p' == src + k
    requires Disjoint(src, n, dst, n) && Disjoint(p, bs, dst, n) && data == m0[src..src + n]
    requires OutSoFar(Dec, fn, bs, m0, m1, dst, k, data, iv0, m0[p..p + bs])
    requires DidOut(m1, m2, dst + k, bs, BlockOut(Dec, fn, bs, m1[p..p + bs], m1[p'..p' + bs]))
    ensures OutSoFar(Dec, fn, bs, m0, m2, dst, k + bs, data, iv0, m0[p'..p' + bs])
  {
    hide OutDone;
    var v := m0[p..p + bs];
    SubSlice(m0, src, n, k, k + bs);
    OutSourceKept(Dec, fn, bs, m0, m1, dst, k, data, iv0, v, p', bs);
    OutSourceKept(Dec, fn, bs, m0, m1, dst, k, data, iv0, v, p, bs);
    MoreOut(Dec, fn, bs, m0, m1, m2, dst, k, dst + k, data, iv0, v, data[k..k + bs]);
  }

  /** crypto_cbc_decrypt_segment. */
  method DecryptSegment(fn: Bytes -> Bytes, bs: nat, mem: array<Byte>, dst: nat, src: nat, n: nat, iv: nat)
    returns (left: nat)
    requires OnBlocks(fn, bs) && Ranges(mem.Length, dst, src, n, iv, bs) && src != dst
    modifies mem
    ensures left == n - Whole(n, bs)
    ensures DidMode(Dec, fn, bs, old(mem[..]), mem[..], dst, src, Whole(n, bs), iv)
  {
    hide OutDone, Did, DidMode, Only, Out, NextIv;
    ghost var m0 := mem[..];
    ghost var iv0, data := m0[iv..iv + bs], m0[src..src + n];
    left := n;
    var p := iv;
    StartOutSoFar(Dec, fn, bs, m0, dst, data, iv0);
    while left >= bs
      invariant 0 <= left <= n && p == (if left == n then iv else src + (n - left) - bs) &&
                (left == n || n - left >= bs)
      invariant OutSoFar(Dec, fn, bs, m0, mem[..], dst, n - left, data, iv0, m0[p..p + bs])
    {
      p := DecryptNext(fn, bs, mem, dst, src, n, p, n - left, m0, data, iv0);
      left := left - bs;
    }
    ghost var m1 := mem[..];
    OutSourceKept(Dec, fn, bs, m0, m1, dst, n - left, data, iv0, m0[p..p + bs], p, bs);
    Copy(mem, iv, p, bs);
    IvLast(Dec, fn, bs, m0, m1, mem[..], dst, n - left, iv, data, iv0, m0[p..p + bs]);
    Finished(Dec, fn, bs, m0, mem[..], dst, src, n, iv, n - left, left, data, iv0);
  }

  // ---- crypto_cbc_decrypt_inplace, from the last block to the first ----

  lemma {:induction false} DecIvIsLast(fn: Bytes -> Bytes, bs: nat, iv: Bytes, data: Bytes)
    requires Blocks(fn, bs, iv, data) && data != []
    ensures |data| >= bs && NextIv(Dec, fn, bs, iv, data) == data[|data| - bs..]
    decreases |data|
  {
    var tail := data[bs..];
    if tail == [] {
      assert data[..bs] == data[|data| - bs..];
    } else {
      DecIvIsLast(fn, bs, data[..bs], tail);
      assert tail[|tail| - bs..] == data[|data| - bs..];
    }
  }

  /** Blocks from `from` on are decrypted; those before it are still ciphertext. */
  ghost predicate Backward(fn: Bytes -> Bytes, bs: nat, m: Bytes, src: nat, data: Bytes, from: nat) {
    && OnBlocks(fn, bs) && src + |data| <= |m|
    && bs <= from <= |data| && Multiple(from, bs) && Multiple(|data| - from, bs)
    && m[src..src + from] == data[..from]
    && BackDone(fn, bs, m, src, data, from)
  }

  ghost predicate BackDone(fn: Bytes -> Bytes, bs: nat, m: Bytes, src: nat, data: Bytes, from: nat)
    requires OnBlocks(fn, bs) && src + |data| <= |m| && bs <= from <= |data| && Multiple(|data| - from, bs)
  {
    m[src + from..src + |data|] == Out(Dec, fn, bs, data[from - bs..from], data[from..])
  }

  lemma Prepend(fn: Bytes -> Bytes, bs: nat, data: Bytes, k: nat, from: nat, prev: Bytes, block: Bytes)
    requires OnBlocks(fn, bs) && |prev| == bs && from == k + bs <= |data| && block == data[k..from] &&
             Multiple(|data| - from, bs)
    ensures Multiple(|data| - k, bs)
    ensures Out(Dec, fn, bs, prev, data[k..]) ==
            BlockOut(Dec, fn, bs, prev, block) + Out(Dec, fn, bs, block, data[from..])
  {
    assert data[k..] == block + data[from..];
    OutCons(Dec, fn, bs, prev, block, data[from..]);
  }

  lemma EarlierMemory(m1: Bytes, m2: Bytes, at: nat, mid: nat, end: nat, block: Bytes, rest: Bytes)
    requires at <= mid <= end <= |m1| && m1[mid..end] == rest && Only(m1, m2, at, mid - at, at, mid - at) &&
             m2[at..mid] == block
    ensures m2[at..end] == block + rest
  {
    KeptTo(m1, m2, at, mid - at, mid, end);
    Joined(m2, at, mid - at, end - mid, mid, end);
  }

  lemma BackwardTail(fn: Bytes -> Bytes, bs: nat, m: Bytes, src: nat, data: Bytes, from: nat, block: Bytes, mid: nat,
                     end: nat)
    requires Backward(fn, bs, m, src, data, from) && block == data[from - bs..from] && mid == src + from &&
             end == src + |data|
    ensures m[mid..end] == Out(Dec, fn, bs, block, data[from..])
  {
  }

  /** One more block, chained to `prev`. */
  lemma Earlier(fn: Bytes -> Bytes, bs: nat, m1: Bytes, m2: Bytes, data: Bytes,
                k: nat, from: nat, prev: Bytes, block: Bytes, at: nat, mid: nat, end: nat)
    requires OnBlocks(fn, bs) && |prev| == bs && from == k + bs <= |data| && block == data[k..from] &&
             Multiple(|data| - from, bs)
    requires at <= mid <= end <= |m1| && m1[mid..end] == Out(Dec, fn, bs, block, data[from..])
    requires Only(m1, m2, at, mid - at, at, mid - at) && m2[at..mid] == BlockOut(Dec, fn, bs, prev, block)
    ensures Multiple(|data| - k, bs) && m2[at..end] == Out(Dec, fn, bs, prev, data[k..])
  {
    Prepend(fn, bs, data, k, from, prev, block);
    EarlierMemory(m1, m2, at, mid, end, m2[at..mid], m1[mid..end]);
  }

  lemma Front(m1: Bytes, m2: Bytes, src: nat, data: Bytes, k: nat, from: nat, at: nat, n: nat)
    requires k <= from <= |data| && src + |data| <= |m1| && at == src + k && m1[src..src + from] == data[..from]
    requires Only(m1, m2, at, n, at, n)
    ensures m2[src..at] == data[..k]
  {
    KeptTo(m1, m2, at, n, src, at);
    StillCipher(m1, src, data, from, 0, k);
    assert data[0..k] == data[..k];
  }

  /** Block k, which is not the first one: decrypted and chained to the one before it. */
  method DecryptBack(fn: Bytes -> Bytes, bs: nat, mem: array<Byte>, src: nat, k: nat, ghost data: Bytes)
    requires k >= bs && k + bs <= |data| && src + |data| <= mem.Length
    requires Backward(fn, bs, mem[..], src, data, k + bs)
    modifies mem
    ensures Backward(fn, bs, mem[..], src, data, k)
    ensures Only(old(mem[..]), mem[..], src + k, bs, src + k, bs)
  {
    hide BackDone;
    ghost var m1, from, prev, block := mem[..], k + bs, data[k - bs..k], data[k..k + bs];
    var at := src + k;
    StillCipher(m1, src, data, from, k, from);
    StillCipher(m1, src, data, from, k - bs, k);
    DecryptBlock(fn, bs, mem, at, at, at - bs);
    BackBlock(fn, bs, m1, mem[..], src, data, k, from, prev, block, at, src + from, src + |data|);
  }

  lemma BackBlock(fn: Bytes -> Bytes, bs: nat, m1: Bytes, m2: Bytes, src: nat, data: Bytes,
                  k: nat, from: nat, prev: Bytes, block: Bytes, at: nat, mid: nat, end: nat)
    requires Backward(fn, bs, m1, src, data, from) && bs <= k && from == k + bs && prev == data[k - bs..k] &&
             block == data[k..from]
    requires at == src + k && mid == src + from && end == src + |data|
    requires DidOut(m1, m2, at, bs, BlockOut(Dec, fn, bs, prev, block))
    ensures Backward(fn, bs, m2, src, data, k)
  {
    hide Out, BlockOut;
    BackwardTail(fn, bs, m1, src, data, from, block, mid, end);
    Earlier(fn, bs, m1, m2, data, k, from, prev, block, at, mid, end);
    Front(m1, m2, src, data, k, from, at, bs);
  }

  lemma StillCipher(m: Bytes, src: nat, data: Bytes, from: nat, i: nat, j: nat)
    requires i <= j <= from <= |data| && src + |data| <= |m| && m[src..src + from] == data[..from]
    ensures m[src + i..src + j] == data[i..j]
  {
    SubSlice(m, src, from, i, j);
    assert data[..from][i..j] == data[i..j];
  }

  /** The first block, chained to the IV the routine was given. */
  method DecryptFirst(fn: Bytes -> Bytes, bs: nat, mem: array<Byte>, src: nat, iv0: Bytes, ghost data: Bytes)
    requires src + |data| <= mem.Length && |iv0| == bs && Backward(fn, bs, mem[..], src, data, bs)
    requires Multiple(|data|, bs)
    modifies mem
    ensures mem[src..src + |data|] == Out(Dec, fn, bs, iv0, data)
    ensures Only(old(mem[..]), mem[..], src, bs, src, bs)
  {
    hide BackDone;
    ghost var m1 := mem[..];
    StillCipher(m1, src, data, bs, 0, bs);
    Apply(fn, bs, mem, src, src);
    XorWith(mem, src, iv0);
    BackwardTail(fn, bs, m1, src, data, bs, data[0..bs], src + bs, src + |data|);
    Earlier(fn, bs, m1, mem[..], data, 0, bs, iv0, data[0..bs], src, src + bs, src + |data|);
    assert data[0..] == data;
  }

  method XorWith(mem: array<Byte>, a: nat, v: Bytes)
    requires a + |v| <= mem.Length
    modifies mem
    ensures mem[a..a + |v|] == Xor(old(mem[a..a + |v|]), v)
    ensures Only(old(mem[..]), mem[..], a, |v|, a, |v|)
  {
    ghost var m := mem[..];
    var i := 0;
    while i < |v|
      invariant 0 <= i <= |v| && XorTo(m, mem[..], a, v, i)
    {
      ghost var m1 := mem[..];
      mem[a + i] := mem[a + i] ^ v[i];
      XorNext(m, m1, mem[..], a, v, i);
      i := i + 1;
    }
    XorDone(m, mem[..], a, v);
  }

  method DecryptAllBack(fn: Bytes -> Bytes, bs: nat, mem: array<Byte>, src: nat, k0: nat, iv0: Bytes, ghost data: Bytes)
    requires OnBlocks(fn, bs) && Multiple(|data|, bs) && src + |data| <= mem.Length && |iv0| == bs && k0 + bs == |data|
    requires mem[src..src + |data|] == data
    modifies mem
    ensures DidOut(old(mem[..]), mem[..], src, |data|, Out(Dec, fn, bs, iv0, data))
  {
    hide BackDone;
    var k := k0;
    ghost var m0 := mem[..];
    BackwardStart(fn, bs, m0, src, data);
    while k > 0
      invariant 0 <= k <= k0 && Multiple(k, bs) && Backward(fn, bs, mem[..], src, data, k + bs)
      invariant Only(m0, mem[..], src, |data|, src, |data|)
    {
      DecryptBack(fn, bs, mem, src, k, data);
      k := k - bs;
    }
    DecryptFirst(fn, bs, mem, src, iv0, data);
  }

  lemma BackwardStart(fn: Bytes -> Bytes, bs: nat, m: Bytes, src: nat, data: Bytes)
    requires OnBlocks(fn, bs) && Multiple(|data|, bs) && bs <= |data| && src + |data| <= |m| &&
             m[src..src + |data|] == data
    ensures Backward(fn, bs, m, src, data, |data|) && Multiple(|data| - bs, bs)
  {
    var n := |data|;
    assert data[..n] == data && data[n..] == [] && m[src + n..src + n] == [];
    assert m[src + n..src + n] == Out(Dec, fn, bs, data[n - bs..n], data[n..]);
  }

  /** crypto_cbc_decrypt_inplace: the IV is saved, replaced by the last block, and the blocks
      are decrypted from the last to the first. */
  method DecryptInPlace(fn: Bytes -> Bytes, bs: nat, mem: array<Byte>, src: nat, n: nat, iv: nat) returns (left: nat)
    requires OnBlocks(fn, bs) && Ranges(mem.Length, src, src, n, iv, bs)
    modifies mem
    ensures left == n - Whole(n, bs)
    ensures DidMode(Dec, fn, bs, old(mem[..]), mem[..], src, src, Whole(n, bs), iv)
  {
    ghost var m0, q := mem[..], Whole(n, bs);
    ghost var data := m0[src..src + q];
    var firstIv := mem[iv..iv + bs];
    left := LeftOver(n, bs);
    var last := n - left - bs;
    var at := src + last;
    Copy(mem, iv, at, bs);
    ghost var m1 := mem[..];
    KeptTo(m0, m1, iv, bs, src, src + q);
    DecryptAllBack(fn, bs, mem, src, last, firstIv, data);
    BackFinished(fn, bs, m0, m1, mem[..], src, q, last, at, iv, firstIv, data);
  }

  lemma BackFinished(fn: Bytes -> Bytes, bs: nat, m0: Bytes, m1: Bytes, m2: Bytes, src: nat, q: nat, last: nat,
                     at: nat, iv: nat,
                     iv0: Bytes, data: Bytes)
    requires Blocks(fn, bs, iv0, data) && src + q <= |m0| && iv + bs <= |m0| && Disjoint(src, q, iv, bs)
    requires data == m0[src..src + q] && iv0 == m0[iv..iv + bs] && last + bs == q && at == src + last
    requires DidOut(m0, m1, iv, bs, m0[at..at + bs]) && DidOut(m1, m2, src, q, Out(Dec, fn, bs, iv0, data))
    ensures DidMode(Dec, fn, bs, m0, m2, src, src, q, iv)
  {
    LastBlock(fn, bs, m0, src, q, last, at, iv0, data);
    IvFirst(m0, m1, m2, src, q, iv, bs, Out(Dec, fn, bs, iv0, data), NextIv(Dec, fn, bs, iv0, data));
  }

  method LeftOver(n: nat, bs: nat) returns (left: nat)
    requires bs > 0
    ensures left == n - Whole(n, bs)
  {
    left := n % bs;
    WholeIs(n, bs);
  }

  lemma LastBlock(fn: Bytes -> Bytes, bs: nat, m: Bytes, src: nat, q: nat, last: nat, at: nat, iv0: Bytes, data: Bytes)
    requires Blocks(fn, bs, iv0, data) && src + q <= |m| && data == m[src..src + q] && last + bs == q &&
             at == src + last
    ensures m[at..at + bs] == NextIv(Dec, fn, bs, iv0, data)
  {
    DecIvIsLast(fn, bs, iv0, data);
    SubSlice(m, src, q, last, q);
  }

  lemma IvFirst(m0: Bytes, m1: Bytes, m2: Bytes, dst: nat, n: nat, iv: nat, bs: nat, out: Bytes, next: Bytes)
    requires dst + n <= |m0| && iv + bs <= |m0| && Disjoint(dst, n, iv, bs)
    requires DidOut(m0, m1, iv, bs, next) && DidOut(m1, m2, dst, n, out)
    ensures Did(m0, m2, dst, n, iv, bs, out, next)
  {
    KeptTo(m1, m2, dst, n, iv, iv + bs);
  }

  // ---- either form ----

  method Encrypt(fn: Bytes -> Bytes, bs: nat, mem: array<Byte>, dst: nat, src: nat, n: nat, iv: nat) returns (left: nat)
    requires OnBlocks(fn, bs) && Ranges(mem.Length, dst, src, n, iv, bs)
    modifies mem
    ensures left == n - Whole(n, bs) && DidMode(Enc, fn, bs, old(mem[..]), mem[..], dst, src, Whole(n, bs), iv)
  {
    if src == dst {
      left := EncryptInPlace(fn, bs, mem, src, n, iv);
    } else {
      left := EncryptSegment(fn, bs, mem, dst, src, n, iv);
    }
  }

  method Decrypt(fn: Bytes -> Bytes, bs: nat, mem: array<Byte>, dst: nat, src: nat, n: nat, iv: nat) returns (left: nat)
    requires OnBlocks(fn, bs) && Ranges(mem.Length, dst, src, n, iv, bs)
    modifies mem
    ensures left == n - Whole(n, bs) && DidMode(Dec, fn, bs, old(mem[..]), mem[..], dst, src, Whole(n, bs), iv)
  {
    if src == dst {
      left := DecryptInPlace(fn, bs, mem, src, n, iv);
    } else {
      left := DecryptSegment(fn, bs, mem, dst, src, n, iv);
    }
  }

  /** The body of the loops of crypto_cbc_encrypt and crypto_cbc_decrypt: whichever form is
      chosen, the result is the mode's. */
  method Crypt(mode: Mode, fn: Bytes -> Bytes, bs: nat, mem: array<Byte>, dst: nat, src: nat, n: nat, iv: nat)
    returns (left: nat, ghost q: nat)
    requires OnBlocks(fn, bs) && Ranges(mem.Length, dst, src, n, iv, bs)
    modifies mem
    ensures left == n - Whole(n, bs) && q == n - left && Multiple(q, bs) && q > 0
    ensures DidMode(mode, fn, bs, old(mem[..]), mem[..], dst, src, q, iv)
  {
    q := Whole(n, bs);
    match mode {
      case Enc => left := Encrypt(fn, bs, mem, dst, src, n, iv);
      case Dec => left := Decrypt(fn, bs, mem, dst, src, n, iv);
    }
  }
}
