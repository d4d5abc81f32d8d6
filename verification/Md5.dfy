/**
 Message digests that are fed in pieces: MD5's buffering and padding, for any compression
 function on 64-byte blocks.
 */
module Md5 {
  import opened Arithmetic
  import opened CbcMode

  const U32: nat := 0x1_0000_0000
  const U64: nat := 0x1_0000_0000_0000_0000

  // ---- RFC 1321 ----

  function Zeros(n: nat): (r: Bytes)
    ensures |r| == n
  {
    seq(n, i => 0)
  }

  function LowByte(w: nat): (b: Byte) {
    (w % 256) as Byte
  }

  /** A 32-bit word, its low-order byte first. */
  function Le32(w: nat): (r: Bytes)
    ensures |r| == 4
  {
    [LowByte(w), LowByte(w / 0x100), LowByte(w / 0x1_0000), LowByte(w / 0x100_0000)]
  }

  /** Section 3.2: the length in bits as two words, the low-order one first; only the low 64
      bits are used. */
  function LengthField(len: nat): (r: Bytes)
    ensures |r| == 8
  {
    Le32(8 * len % U32) + Le32(8 * len / U32 % U32)
  }

  /** The bytes after the last whole block. */
  function Tail(msg: Bytes): (r: Bytes)
    ensures |r| < 64 && |r| <= |msg|
    decreases |msg|
  {
    if |msg| < 64 then msg else Tail(msg[64..])
  }

  /** Section 3.1: a one bit and then zeros, up to 56 modulo 64; then the length. */
  function PaddedWith(msg: Bytes, field: Bytes): (r: Bytes)
    requires |field| == 8
  {
    var used := |Tail(msg)|;
    var fill := if used < 56 then 55 - used else 119 - used;
    msg + ([0x80] + Zeros(fill) + field)
  }

  function Padded(msg: Bytes): (r: Bytes) {
    PaddedWith(msg, LengthField(|msg|))
  }

  /** Whole blocks, one after another. */
  function Fold<H>(compress: (H, Bytes) -> H, h: H, data: Bytes): (r: H)
    decreases |data|
  {
    if |data| < 64 then h else Fold(compress, compress(h, data[..64]), data[64..])
  }

  /** What every digest must be. */
  function Digest<H>(compress: (H, Bytes) -> H, h: H, emit: H -> Bytes, msg: Bytes): (r: Bytes) {
    emit(Fold(compress, h, Padded(msg)))
  }

  /** A message may be cut anywhere, if what is left of the first part goes with the second. */
  lemma {:induction false} FoldMore<H>(compress: (H, Bytes) -> H, h: H, a: Bytes, b: Bytes)
    ensures Fold(compress, h, a + b) == Fold(compress, Fold(compress, h, a), Tail(a) + b)
    ensures Tail(a + b) == Tail(Tail(a) + b)
    decreases |a|
  {
    if |a| >= 64 {
      assert (a + b)[..64] == a[..64] && (a + b)[64..] == a[64..] + b;
      FoldMore(compress, compress(h, a[..64]), a[64..], b);
    }
  }

  lemma FoldBlock<H>(compress: (H, Bytes) -> H, h: H, block: Bytes)
    requires |block| == 64
    ensures Fold(compress, h, block) == compress(h, block) && Tail(block) == []
  {
    assert block[..64] == block && block[64..] == [];
  }

  // ---- a 64-bit counter ----

  function Wrapped(n: nat): (r: nat)
    ensures r < U64 && r <= n
    decreases n
  {
    if n < U64 then n else Wrapped(n - U64)
  }

  lemma {:induction false} WrappedIs(n: nat)
    ensures Wrapped(n) == n % U64
    decreases n
  {
    if n >= U64 {
      WrappedIs(n - U64);
      LessOne(n, U64);
    } else {
      Quotient(n, U64, 0, n);
    }
  }

  /** The counter goes on from its wrapped value. */
  lemma WrappedMore(n: nat, k: nat)
    ensures (Wrapped(n) + k) % U64 == Wrapped(n + k)
  {
    WrappedIs(n);
    WrappedIs(n + k);
    var q, r := n / U64, n % U64;
    DivMod(n, U64);
    DivMod(r + k, U64);
    var j := (r + k) / U64;
    assert U64 * (q + j) == U64 * q + U64 * j;
    Quotient(n + k, U64, q + j, (r + k) % U64);
  }

  lemma {:induction false} TailLength(msg: Bytes)
    ensures |Tail(msg)| == |msg| % 64
    decreases |msg|
  {
    if |msg| >= 64 {
      TailLength(msg[64..]);
      LessOne(|msg|, 64);
    } else {
      Quotient(|msg|, 64, 0, |msg|);
    }
  }

  /** The low bits of the counter say how much of the buffer is used. */
  lemma UsedIs(msg: Bytes)
    ensures Wrapped(|msg|) % 64 == |Tail(msg)|
  {
    TailLength(msg);
    WrappedLow(|msg|);
  }

  lemma {:induction false} WrappedLow(n: nat)
    ensures Wrapped(n) % 64 == n % 64
    decreases n
  {
    if n >= U64 {
      WrappedLow(n - U64);
      var m := n - U64;
      DivMod(m, 64);
      Quotient(n, 64, m / 64 + 0x400_0000_0000_0000, m % 64);
    }
  }

  // ---- the context ----

  class Md5Ctx<H> {
    const compress: (H, Bytes) -> H
    const start: H
    const emit: H -> Bytes
    const block: array<Byte>
    var hash: H
    var byteCount: nat

    constructor (compress: (H, Bytes) -> H, start: H, emit: H -> Bytes)
      ensures fresh(block) && block.Length == 64
      ensures this.compress == compress && this.start == start && this.emit == emit
    {
      this.compress, this.start, this.emit := compress, start, emit;
      block := new Byte[64](_ => 0);
      hash, byteCount := start, 0;
    }

    /** The context has taken in msg: whole blocks are hashed and the rest is in the buffer. */
    ghost predicate Holds(msg: Bytes)
      reads this, block
    {
      && block.Length == 64 && byteCount == Wrapped(|msg|)
      && hash == Fold(compress, start, msg)
      && block[..|Tail(msg)|] == Tail(msg)
    }

    /** md5_init. */
    method Init()
      requires block.Length == 64
      modifies this
      ensures Holds([])
    {
      hash, byteCount := start, 0;
    }

    method CopyIn(at: nat, data: Bytes)
      requires block.Length == 64 && at + |data| <= 64
      modifies block
      ensures block[..] == old(block[..at]) + data + old(block[at + |data|..])
    {
      forall i | 0 <= i < |data| { block[at + i] := data[i]; }
    }

    method Transform()
      requires block.Length == 64
      modifies this`hash
      ensures hash == compress(old(hash), block[..])
    {
      hash := compress(hash, block[..]);
    }

    /** md5_update. */
    method Update(data: Bytes, ghost msg: Bytes)
      requires Holds(msg)
      modifies this, block
      ensures Holds(msg + data)
    {
      var used := byteCount % 64;
      var avail := 64 - used;
      UsedIs(msg);
      WrappedMore(|msg|, |data|);
      byteCount := (byteCount + |data|) % U64;
      if avail > |data| {
        CopyIn(used, data);
        FoldMore(compress, start, msg, data);
        return;
      }
      CopyIn(used, data[..avail]);
      FoldMore(compress, start, msg, data[..avail]);
      FoldBlock(compress, hash, block[..]);
      assert block[..] == Tail(msg) + data[..avail];
      Transform();
      UpdateBlocks(data, avail, msg);
    }

    /** The rest of md5_update: whole blocks straight from the data, then what is left. */
    method UpdateBlocks(data: Bytes, from: nat, ghost msg: Bytes)
      requires block.Length == 64 && from <= |data| && Tail(msg + data[..from]) == [] &&
               byteCount == Wrapped(|msg + data|)
      requires hash == Fold(compress, start, msg + data[..from])
      modifies this`hash, block
      ensures Holds(msg + data)
    {
      var k := from;
      while |data| - k >= 64
        invariant from <= k <= |data| && Tail(msg + data[..k]) == []
        invariant hash == Fold(compress, start, msg + data[..k])
      {
        CopyIn(0, data[k..k + 64]);
        NextBlock(compress, start, msg, data, k, k + 64, block[..]);
        Transform();
        k := k + 64;
      }
      CopyIn(0, data[k..]);
      Rest(compress, start, msg, data, k);
    }

    method Clear(from: nat, to: nat)
      requires block.Length == 64 && from <= to <= 64
      modifies block
      ensures block[..] == old(block[..from]) + Zeros(to - from) + old(block[to..])
    {
      forall i | from <= i < to { block[i] := 0; }
    }

    /** md5_final: the padding, in one block or two, and the length. */
    method Final(ghost msg: Bytes) returns (out: Bytes)
      requires Holds(msg)
      modifies this, block
      ensures out == Digest(compress, start, emit, msg)
    {
      var offset := byteCount % 64;
      UsedIs(msg);
      block[offset] := 0x80;
      assert block[..offset + 1] == Tail(msg) + [0x80];
      var field := LengthBytes(byteCount, |msg|);
      if offset >= 56 {
        PadTwo(offset, field, msg);
      } else {
        PadOne(offset, field, msg);
      }
      out := emit(hash);
    }

    method PadOne(offset: nat, field: Bytes, ghost msg: Bytes)
      requires block.Length == 64 && offset == |Tail(msg)| < 56 && |field| == 8
      requires block[..offset + 1] == Tail(msg) + [0x80] && hash == Fold(compress, start, msg)
      modifies this`hash, block
      ensures hash == Fold(compress, start, PaddedWith(msg, field))
    {
      Clear(offset + 1, 56);
      CopyIn(56, field);
      OnlyPad(compress, start, msg, Tail(msg), field, block[..]);
      Transform();
    }

    method PadTwo(offset: nat, field: Bytes, ghost msg: Bytes)
      requires block.Length == 64 && 56 <= offset == |Tail(msg)| && |field| == 8
      requires block[..offset + 1] == Tail(msg) + [0x80] && hash == Fold(compress, start, msg)
      modifies this`hash, block
      ensures hash == Fold(compress, start, PaddedWith(msg, field))
    {
      Clear(offset + 1, 64);
      ghost var first := block[..];
      Transform();
      Clear(0, 56);
      CopyIn(56, field);
      TwoPads(compress, start, msg, Tail(msg), field, first, block[..]);
      Transform();
    }
  }

  /** The two words of the length, from a counter that has wrapped around at 64 bits. */
  method LengthBytes(count: nat, ghost len: nat) returns (field: Bytes)
    requires count == Wrapped(len)
    ensures field == LengthField(len)
  {
    field := Le32(count * 8 % U32) + Le32(count / 0x2000_0000 % U32);
    WrappedIs(len);
    CountWords(count, len);
  }

  lemma CountWords(count: nat, len: nat)
    requires count == len % U64
    ensures count * 8 % U32 == 8 * len % U32 && count / 0x2000_0000 % U32 == 8 * len / U32 % U32
  {
    var q, c := len / U64, count / 0x2000_0000;
    DivMod(len, U64);
    DivMod(count, 0x2000_0000);
    DivMod(c, U32);
    var r := 8 * (count % 0x2000_0000);
    Quotient(8 * count, U32, c, r);
    Quotient(8 * len, U32, 0x8_0000_0000 * q + c, r);
    Quotient(0x8_0000_0000 * q + c, U32, 8 * q + c / U32, c % U32);
  }

  lemma NextBlock<H>(compress: (H, Bytes) -> H, h: H, msg: Bytes, data: Bytes, k: nat, k': nat, block: Bytes)
    requires k' == k + 64 <= |data| && Tail(msg + data[..k]) == [] && block == data[k..k']
    ensures Tail(msg + data[..k']) == []
    ensures Fold(compress, h, msg + data[..k']) == compress(Fold(compress, h, msg + data[..k]), block)
  {
    var so := msg + data[..k];
    assert msg + data[..k'] == so + block;
    FoldMore(compress, h, so, block);
    assert [] + block == block;
    FoldBlock(compress, Fold(compress, h, so), block);
  }

  /** Less than a block is left. */
  lemma Rest<H>(compress: (H, Bytes) -> H, h: H, msg: Bytes, data: Bytes, k: nat)
    requires k <= |data| < k + 64 && Tail(msg + data[..k]) == []
    ensures Tail(msg + data) == data[k..] && Fold(compress, h, msg + data) == Fold(compress, h, msg + data[..k])
  {
    var so := msg + data[..k];
    assert msg + data == so + data[k..];
    FoldMore(compress, h, so, data[k..]);
    assert [] + data[k..] == data[k..];
  }

  lemma OnlyPad<H>(compress: (H, Bytes) -> H, h: H, msg: Bytes, tail: Bytes, field: Bytes, block: Bytes)
    requires tail == Tail(msg) && |tail| < 56 && |field| == 8
    requires block == tail + [0x80] + Zeros(55 - |tail|) + field
    ensures Fold(compress, h, PaddedWith(msg, field)) == compress(Fold(compress, h, msg), block)
  {
    var end := [0x80] + Zeros(55 - |tail|) + field;
    FoldMore(compress, h, msg, end);
    assert tail + end == block;
    FoldBlock(compress, Fold(compress, h, msg), block);
  }

  lemma TwoPads<H>(compress: (H, Bytes) -> H, h: H, msg: Bytes, tail: Bytes, field: Bytes, first: Bytes, second: Bytes)
    requires tail == Tail(msg) && 56 <= |tail| && |field| == 8
    requires first == tail + [0x80] + Zeros(63 - |tail|) && second == Zeros(56) + field
    ensures Fold(compress, h, PaddedWith(msg, field)) == compress(compress(Fold(compress, h, msg), first), second)
  {
    var end := [0x80] + Zeros(119 - |tail|) + field;
    var g := Fold(compress, h, msg);
    FoldMore(compress, h, msg, end);
    assert Zeros(119 - |tail|) == Zeros(63 - |tail|) + Zeros(56);
    assert tail + end == first + second;
    FoldMore(compress, g, first, second);
    FoldBlock(compress, g, first);
    assert [] + second == second;
    FoldBlock(compress, compress(g, first), second);
  }
}
