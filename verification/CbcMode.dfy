/**
 Cipher block chaining, on bytes: section 6.2 of NIST SP 800-38A, for any block function.
 */
module CbcMode {
  import opened Arithmetic

  type Byte = bv8
  type Bytes = seq<Byte>

  datatype Mode = Enc | Dec

  /** A block function on blocks of bs bytes. */
  ghost predicate OnBlocks(fn: Bytes -> Bytes, bs: nat) {
    bs > 0 && forall b: Bytes :: |b| == bs ==> |fn(b)| == bs
  }

  function Xor(a: Bytes, b: Bytes): (r: Bytes)
    requires |a| == |b|
    ensures |r| == |a|
  {
    seq(|a|, i requires 0 <= i < |a| => a[i] ^ b[i])
  }

  lemma XorLaws(a: Bytes, b: Bytes)
    requires |a| == |b|
    ensures Xor(a, b) == Xor(b, a) && Xor(Xor(a, b), b) == a
  {
    forall i | 0 <= i < |a| ensures Xor(Xor(a, b), b)[i] == a[i] { ByteXor(a[i], b[i]); }
  }

  lemma ByteXor(x: Byte, y: Byte)
    ensures (x ^ y) ^ y == x
  {
  }

  // ---- the mode ----

  /** The output for one block. */
  ghost function BlockOut(mode: Mode, fn: Bytes -> Bytes, bs: nat, iv: Bytes, block: Bytes): (r: Bytes)
    requires OnBlocks(fn, bs) && |iv| == |block| == bs
    ensures |r| == bs
  {
    match mode
    case Enc => fn(Xor(iv, block))
    case Dec => Xor(fn(block), iv)
  }

  /** What the next block is chained to: always a block of ciphertext. */
  ghost function BlockIv(mode: Mode, fn: Bytes -> Bytes, bs: nat, iv: Bytes, block: Bytes): (r: Bytes)
    requires OnBlocks(fn, bs) && |iv| == |block| == bs
    ensures |r| == bs
  {
    match mode
    case Enc => fn(Xor(iv, block))
    case Dec => block
  }

  ghost predicate Blocks(fn: Bytes -> Bytes, bs: nat, iv: Bytes, data: Bytes) {
    OnBlocks(fn, bs) && |iv| == bs && Multiple(|data|, bs)
  }

  ghost function Out(mode: Mode, fn: Bytes -> Bytes, bs: nat, iv: Bytes, data: Bytes): (r: Bytes)
    requires Blocks(fn, bs, iv, data)
    ensures |r| == |data|
    decreases |data|
  {
    if data == [] then [] else
      BlockOut(mode, fn, bs, iv, data[..bs]) + Out(mode, fn, bs, BlockIv(mode, fn, bs, iv, data[..bs]), data[bs..])
  }

  ghost function NextIv(mode: Mode, fn: Bytes -> Bytes, bs: nat, iv: Bytes, data: Bytes): (r: Bytes)
    requires Blocks(fn, bs, iv, data)
    ensures |r| == bs
    decreases |data|
  {
    if data == [] then iv else
      NextIv(mode, fn, bs, BlockIv(mode, fn, bs, iv, data[..bs]), data[bs..])
  }

  lemma Assoc(x: Bytes, y: Bytes, z: Bytes)
    ensures (x + y) + z == x + (y + z)
  {
  }

  /** A message may be cut at any block. */
  lemma {:induction false} OutConcat(mode: Mode, fn: Bytes -> Bytes, bs: nat, iv: Bytes, a: Bytes, b: Bytes)
    requires Blocks(fn, bs, iv, a) && Blocks(fn, bs, iv, b)
    ensures Blocks(fn, bs, iv, a + b)
    ensures Out(mode, fn, bs, iv, a + b) == Out(mode, fn, bs, iv, a) + Out(mode, fn, bs, NextIv(mode, fn, bs, iv, a), b)
    ensures NextIv(mode, fn, bs, iv, a + b) == NextIv(mode, fn, bs, NextIv(mode, fn, bs, iv, a), b)
    decreases |a|, 1
  {
    if a == [] {
      assert a + b == b;
    } else {
      assert a == a[..bs] + a[bs..];
      ConcatFirst(mode, fn, bs, iv, a[..bs], a[bs..], b);
    }
  }

  lemma {:induction false} ConcatFirst(mode: Mode, fn: Bytes -> Bytes, bs: nat, iv: Bytes, block: Bytes, rest: Bytes,
                                       b: Bytes)
    requires Blocks(fn, bs, iv, rest) && Blocks(fn, bs, iv, b) && |block| == bs
    ensures Blocks(fn, bs, iv, (block + rest) + b) && Blocks(fn, bs, iv, block + rest)
    ensures Out(mode, fn, bs, iv, (block + rest) + b)
         == Out(mode, fn, bs, iv, block + rest) + Out(mode, fn, bs, NextIv(mode, fn, bs, iv, block + rest), b)
    ensures NextIv(mode, fn, bs, iv, (block + rest) + b) ==
            NextIv(mode, fn, bs, NextIv(mode, fn, bs, iv, block + rest), b)
    decreases |block| + |rest|, 0
  {
    var iv' := BlockIv(mode, fn, bs, iv, block);
    OutConcat(mode, fn, bs, iv', rest, b);
    Assoc(block, rest, b);
    OutCons(mode, fn, bs, iv, block, rest);
    OutCons(mode, fn, bs, iv, block, rest + b);
    Assoc(BlockOut(mode, fn, bs, iv, block), Out(mode, fn, bs, iv', rest),
          Out(mode, fn, bs, NextIv(mode, fn, bs, iv', rest), b));
  }

  /** One block at the front. */
  lemma OutCons(mode: Mode, fn: Bytes -> Bytes, bs: nat, iv: Bytes, block: Bytes, rest: Bytes)
    requires Blocks(fn, bs, iv, rest) && |block| == bs
    ensures Blocks(fn, bs, iv, block + rest)
    ensures Out(mode, fn, bs, iv, block + rest)
         == BlockOut(mode, fn, bs, iv, block) + Out(mode, fn, bs, BlockIv(mode, fn, bs, iv, block), rest)
    ensures NextIv(mode, fn, bs, iv, block + rest) == NextIv(mode, fn, bs, BlockIv(mode, fn, bs, iv, block), rest)
  {
    var data := block + rest;
    assert data[..bs] == block && data[bs..] == rest;
  }

  lemma UndoBlock(enc: Bytes -> Bytes, dec: Bytes -> Bytes, bs: nat, iv: Bytes, block: Bytes)
    requires OnBlocks(enc, bs) && OnBlocks(dec, bs) && |iv| == |block| == bs
    requires forall b: Bytes :: |b| == bs ==> dec(enc(b)) == b
    ensures BlockOut(Dec, dec, bs, iv, BlockOut(Enc, enc, bs, iv, block)) == block
  {
    XorLaws(iv, block);
    XorLaws(block, iv);
  }

  /** Decryption with the inverse block function undoes encryption and ends with the same IV. */
  lemma {:induction false} DecryptUndoesEncrypt(enc: Bytes -> Bytes, dec: Bytes -> Bytes, bs: nat, iv: Bytes,
                                                data: Bytes)
    requires Blocks(enc, bs, iv, data) && OnBlocks(dec, bs)
    requires forall b: Bytes :: |b| == bs ==> dec(enc(b)) == b
    ensures Blocks(dec, bs, iv, Out(Enc, enc, bs, iv, data))
    ensures Out(Dec, dec, bs, iv, Out(Enc, enc, bs, iv, data)) == data
    ensures NextIv(Dec, dec, bs, iv, Out(Enc, enc, bs, iv, data)) == NextIv(Enc, enc, bs, iv, data)
    decreases |data|, 1
  {
    if data != [] {
      UndoFirst(enc, dec, bs, iv, data[..bs], data[bs..]);
      assert data == data[..bs] + data[bs..];
    }
  }

  lemma {:induction false} UndoFirst(enc: Bytes -> Bytes, dec: Bytes -> Bytes, bs: nat, iv: Bytes, block: Bytes,
                                     rest: Bytes)
    requires Blocks(enc, bs, iv, rest) && OnBlocks(dec, bs) && |block| == bs
    requires forall b: Bytes :: |b| == bs ==> dec(enc(b)) == b
    ensures Blocks(enc, bs, iv, block + rest) && Blocks(dec, bs, iv, Out(Enc, enc, bs, iv, block + rest))
    ensures Out(Dec, dec, bs, iv, Out(Enc, enc, bs, iv, block + rest)) == block + rest
    ensures NextIv(Dec, dec, bs, iv, Out(Enc, enc, bs, iv, block + rest)) == NextIv(Enc, enc, bs, iv, block + rest)
    decreases |block| + |rest|, 0
  {
    var c := BlockOut(Enc, enc, bs, iv, block);
    OutCons(Enc, enc, bs, iv, block, rest);
    DecryptUndoesEncrypt(enc, dec, bs, c, rest);
    OutCons(Dec, dec, bs, iv, c, Out(Enc, enc, bs, c, rest));
    UndoBlock(enc, dec, bs, iv, block);
  }

  /** One block at the end. */
  lemma OutSnoc(mode: Mode, fn: Bytes -> Bytes, bs: nat, iv: Bytes, a: Bytes, block: Bytes)
    requires Blocks(fn, bs, iv, a) && Blocks(fn, bs, iv, a + block) && |block| == bs
    ensures Out(mode, fn, bs, iv, a + block)
         == Out(mode, fn, bs, iv, a) + BlockOut(mode, fn, bs, NextIv(mode, fn, bs, iv, a), block)
    ensures NextIv(mode, fn, bs, iv, a + block) == BlockIv(mode, fn, bs, NextIv(mode, fn, bs, iv, a), block)
  {
    assert Multiple(0, bs);
    OutConcat(mode, fn, bs, iv, a, block);
    var iv' := NextIv(mode, fn, bs, iv, a);
    assert block[..bs] == block && block[bs..] == [];
    assert Out(mode, fn, bs, iv', block) == BlockOut(mode, fn, bs, iv', block) + [];
  }
}
