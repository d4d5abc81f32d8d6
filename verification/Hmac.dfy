/**
 HMAC over MD5, in the child digest's own context: setkey, init, update, final and the
 one-shot digest all agree with section 2 of RFC 2104.
 */
module Hmac {
  import opened CbcMode
  import opened Cbc
  import opened ScatterWalk
  import opened Md5
  import opened HashDigest

  // ---- RFC 2104 ----

  function Same(x: Byte, n: nat): (r: Bytes)
    ensures |r| == n
  {
    seq(n, i => x)
  }

  /** The key, hashed if it is longer than a block, with zeros appended up to a block. */
  function BlockKey(hash: Bytes -> Bytes, key: Bytes): (r: Bytes)
    requires |hash(key)| <= 64
    ensures |r| == 64
  {
    var k := if |key| > 64 then hash(key) else key;
    k + Zeros(64 - |k|)
  }

  /** H(K xor opad, H(K xor ipad, text)). */
  function Mac(hash: Bytes -> Bytes, key: Bytes, text: Bytes): (r: Bytes)
    requires |hash(key)| <= 64
  {
    var k := BlockKey(hash, key);
    hash(Xor(k, Same(0x5c, 64)) + hash(Xor(k, Same(0x36, 64)) + text))
  }

  /** The same with the first n bytes of the inner pad for the inner message. */
  function WrappedMac(hash: Bytes -> Bytes, key: Bytes, n: nat): (r: Bytes)
    requires |hash(key)| <= 64 && n <= 64
  {
    var k := BlockKey(hash, key);
    hash(Xor(k, Same(0x5c, 64)) + hash(Xor(k, Same(0x36, 64))[..n]))
  }

  // ---- the transform ----

  /** sg_set_buf: the entry for a stretch of memory. */
  function Buf(addr: nat, n: nat, pageSize: nat): (e: Entry)
    requires pageSize > 0
  {
    Entry(addr / pageSize, addr % pageSize, n)
  }

  lemma BufAddrs(addr: nat, n: nat, pageSize: nat)
    requires pageSize > 0
    ensures From([Buf(addr, n, pageSize)], 0, pageSize) == Run(addr, n)
  {
    var e := Buf(addr, n, pageSize);
    assert e.page * pageSize + e.offset == addr;
    assert From([e], 1, pageSize) == [];
  }

  class HmacCtx<H(!new)> {
    const child: Md5Ctx<H>
    const mem: array<Byte>
    const ipad: nat        // followed by opad and the digest
    const ds: nat
    const pageSize: nat
    const align: nat

    ghost predicate Valid() {
      && child.block.Length == 64 && mem != child.block && align > 0 && 0 < pageSize < U32
      && 0 < ds <= 64 && (forall h: H :: |child.emit(h)| == ds)
      && ipad + 128 + ds <= mem.Length
    }

    constructor (child: Md5Ctx<H>, mem: array<Byte>, ipad: nat, ds: nat, pageSize: nat, align: nat)
      ensures this.child == child && this.mem == mem && this.ipad == ipad && this.ds == ds
      ensures this.pageSize == pageSize && this.align == align
    {
      this.child, this.mem, this.ipad, this.ds, this.pageSize, this.align := child, mem, ipad, ds, pageSize, align;
    }

    /** The child digest of a whole message. */
    ghost function Hash(): (f: Bytes -> Bytes) {
      msg => Digest(child.compress, child.start, child.emit, msg)
    }

    /** The pads are those of a key. */
    ghost predicate Keyed(key: Bytes)
      requires Valid()
      reads mem
    {
      && mem[ipad..ipad + 64] == Xor(BlockKey(Hash(), key), Same(0x36, 64))
      && mem[ipad + 64..ipad + 128] == Xor(BlockKey(Hash(), key), Same(0x5c, 64))
    }

    /** Text has been taken in since hmac_init. */
    ghost predicate Taken(key: Bytes, text: Bytes)
      requires Valid()
      reads mem, child, child.block
    {
      Keyed(key) && child.Holds(mem[ipad..ipad + 64] + text)
    }

    /** crypto_hash_update on a stretch of memory. */
    method UpdateBuf(addr: nat, n: nat, ghost msg: Bytes)
      requires Valid() && child.Holds(msg) && 0 < n < U32 && addr + n <= mem.Length
      modifies child, child.block
      ensures child.Holds(msg + mem[addr..addr + n])
    {
      var e := Buf(addr, n, pageSize);
      BufAddrs(addr, n, pageSize);
      GatherRun(mem[..], addr, n);
      assert Run(addr, n)[..n] == Run(addr, n);
      Update2(child, mem, [e], n, pageSize, align, msg);
    }

    /** crypto_hash_digest on a stretch of memory. */
    method DigestBuf(addr: nat, n: nat) returns (out: Bytes)
      requires Valid() && 0 < n < U32 && addr + n <= mem.Length
      modifies child, child.block
      ensures out == Hash()(mem[addr..addr + n]) && |out| == ds
    {
      child.Init();
      UpdateBuf(addr, n, []);
      assert [] + mem[addr..addr + n] == mem[addr..addr + n];
      out := child.Final(mem[addr..addr + n]);
    }

    method Store(at: nat, bytes: Bytes)
      requires at + |bytes| <= mem.Length
      modifies mem
      ensures mem[at..at + |bytes|] == bytes && Only(old(mem[..]), mem[..], at, |bytes|, at, |bytes|)
    {
      forall i | 0 <= i < |bytes| { mem[at + i] := bytes[i]; }
    }

    /** hmac_setkey: a long key is hashed into the digest buffer first. */
    method SetKey(inkey: nat, keylen: nat)
      requires Valid() && inkey + keylen <= mem.Length && keylen < U32
      requires Disjoint(inkey, keylen, ipad, 128 + ds)
      modifies mem, child, child.block
      ensures Keyed(old(mem[inkey..inkey + keylen]))
    {
      ghost var k := BlockKey(Hash(), mem[inkey..inkey + keylen]);
      hide Xor, Same, Zeros;
      if keylen > 64 { HashKey(inkey, keylen, k); } else { FillPads(inkey, keylen); }
      XorPads(k);
    }

    /** A long key: its digest takes its place. */
    method HashKey(inkey: nat, keylen: nat, ghost k: Bytes)
      requires Valid() && inkey + keylen <= mem.Length && 64 < keylen < U32
      requires k == BlockKey(Hash(), mem[inkey..inkey + keylen])
      modifies mem, child, child.block
      ensures mem[ipad..ipad + 64] == k && mem[ipad + 64..ipad + 128] == k
    {
      var digest := DigestBuf(inkey, keylen);
      Store(ipad + 128, digest);
      FillPads(ipad + 128, ds);
    }

    /** Both pads hold the key and zeros. */
    method FillPads(from: nat, n: nat)
      requires Valid() && n <= 64 && from + n <= mem.Length && Disjoint(from, n, ipad, 128)
      modifies mem
      ensures mem[ipad..ipad + 64] == old(mem[from..from + n]) + Zeros(64 - n)
      ensures mem[ipad + 64..ipad + 128] == old(mem[from..from + n]) + Zeros(64 - n)
    {
      FillPad(from, n);
      ghost var m := mem[..];
      Copy(mem, ipad + 64, ipad, 64);
      Kept(m, mem[..], ipad + 64, 64, ipad + 64, 64, ipad, 64);
    }

    method FillPad(from: nat, n: nat)
      requires Valid() && n <= 64 && from + n <= mem.Length && Disjoint(from, n, ipad, 128)
      modifies mem
      ensures mem[ipad..ipad + 64] == old(mem[from..from + n]) + Zeros(64 - n)
    {
      Copy(mem, ipad, from, n);
      ghost var m := mem[..];
      Store(ipad + n, Zeros(64 - n));
      KeptTo(m, mem[..], ipad + n, 64 - n, ipad, ipad + n);
      Joined(mem[..], ipad, n, 64 - n, ipad + n, ipad + 64);
    }

    method XorPads(ghost k: Bytes)
      requires Valid() && |k| == 64 && mem[ipad..ipad + 64] == k && mem[ipad + 64..ipad + 128] == k
      modifies mem
      ensures mem[ipad..ipad + 64] == Xor(k, Same(0x36, 64))
      ensures mem[ipad + 64..ipad + 128] == Xor(k, Same(0x5c, 64))
    {
      hide Xor, Same;
      var i := 0;
      ghost var m := mem[..];
      while i < 64
        invariant 0 <= i <= 64
        invariant PadsXored(m, mem[..], ipad, i, 0x36) && PadsXored(m, mem[..], ipad + 64, i, 0x5c)
      {
        XorByte(m, ipad, ipad + 64, i, 0x36, 0x5c, i);
        XorByte(m, ipad + 64, ipad, i, 0x5c, 0x36, i + 1);
        i := i + 1;
      }
      XorAll(m, mem[..], ipad, k, 0x36);
      XorAll(m, mem[..], ipad + 64, k, 0x5c);
    }

    /** Byte i of the pad at a; j bytes of the other, at b, have been done. */
    method XorByte(ghost m: Bytes, a: nat, ghost b: nat, i: nat, x: Byte, ghost y: Byte, ghost j: nat)
      requires Valid() && i < 64 && j <= 64 && a + 64 <= mem.Length && (a + 64 <= b || b + 64 <= a)
      requires PadsXored(m, mem[..], a, i, x) && PadsXored(m, mem[..], b, j, y)
      modifies mem
      ensures PadsXored(m, mem[..], a, i + 1, x) && PadsXored(m, mem[..], b, j, y)
    {
      ghost var m1 := mem[..];
      mem[a + i] := mem[a + i] ^ x;
      XorStep(m, m1, mem[..], a, b, i, x, y, j);
    }

    /** hmac_init. */
    method Init(ghost key: Bytes)
      requires Valid() && Keyed(key)
      modifies child, child.block
      ensures Taken(key, [])
    {
      child.Init();
      UpdateBuf(ipad, 64, []);
      assert [] + mem[ipad..ipad + 64] == mem[ipad..ipad + 64] + [];
    }

    /** hmac_update. */
    method Update(sgs: seq<Entry>, nbytes: nat, ghost key: Bytes, ghost text: Bytes)
      requires Valid() && Taken(key, text) && Entries(sgs, pageSize)
      requires nbytes <= |From(sgs, 0, pageSize)| && InMem(From(sgs, 0, pageSize)[..nbytes], mem.Length)
      modifies child, child.block
      ensures Taken(key, text + Gather(mem[..], From(sgs, 0, pageSize)[..nbytes]))
    {
      ghost var pad, more := mem[ipad..ipad + 64], Gather(mem[..], From(sgs, 0, pageSize)[..nbytes]);
      Update2(child, mem, sgs, nbytes, pageSize, align, pad + text);
      assert (pad + text) + more == pad + (text + more);
    }

    /** The outer digest: opad and the inner digest lie next to each other. */
    method Outer(inner: Bytes, ghost key: Bytes) returns (out: Bytes)
      requires Valid() && Keyed(key) && |inner| == ds
      modifies mem, child, child.block
      ensures Keyed(key)
      ensures out == Hash()(Xor(BlockKey(Hash(), key), Same(0x5c, 64)) + inner)
    {
      ghost var m := mem[..];
      Store(ipad + 128, inner);
      Kept(m, mem[..], ipad + 128, ds, ipad + 128, ds, ipad, 64);
      Kept(m, mem[..], ipad + 128, ds, ipad + 128, ds, ipad + 64, 64);
      Joined(mem[..], ipad + 64, 64, ds, ipad + 128, ipad + 128 + ds);
      out := DigestBuf(ipad + 64, 64 + ds);
    }

    /** hmac_final. */
    method Final(ghost key: Bytes, ghost text: Bytes) returns (out: Bytes)
      requires Valid() && Taken(key, text)
      modifies mem, child, child.block
      ensures Keyed(key) && out == Mac(Hash(), key, text)
    {
      var inner := child.Final(mem[ipad..ipad + 64] + text);
      out := Outer(inner, key);
    }

    /** The inner digest of hmac_digest. */
    method InnerDigest(sgs: seq<Entry>, nbytes: nat) returns (inner: Bytes)
      requires Valid() && Entries(sgs, pageSize) && nbytes < U32
      requires nbytes <= |From(sgs, 0, pageSize)| && InMem(From(sgs, 0, pageSize)[..nbytes], mem.Length)
      modifies child, child.block
      ensures inner == Hash()(Inside(mem[..], ipad, sgs, nbytes, pageSize)) && |inner| == ds
    {
      hide Inside, Gather, Entries;
      var e := Buf(ipad, 64, pageSize);
      var total := (64 + nbytes) % U32;
      ghost var inside := Inside(mem[..], ipad, sgs, nbytes, pageSize);
      InsideIs(mem[..], e, sgs, ipad, nbytes, pageSize);
      BufEntry(ipad, sgs, pageSize);
      child.Init();
      Update2(child, mem, [e] + sgs, total, pageSize, align, []);
      assert [] + inside == inside;
      inner := child.Final(inside);
    }

    /** hmac_digest: the message follows ipad in one list, and the length of both is a 32-bit
        number.  When that wraps around, the inner digest is of part of the pad alone. */
    method OneShot(sgs: seq<Entry>, nbytes: nat, ghost key: Bytes) returns (out: Bytes)
      requires Valid() && Keyed(key) && Entries(sgs, pageSize) && nbytes < U32
      requires nbytes <= |From(sgs, 0, pageSize)| && InMem(From(sgs, 0, pageSize)[..nbytes], mem.Length)
      modifies mem, child, child.block
      ensures Keyed(key)
      ensures out == if 64 + nbytes < U32
                     then Mac(Hash(), key, old(Gather(mem[..], From(sgs, 0, pageSize)[..nbytes])))
                     else WrappedMac(Hash(), key, 64 + nbytes - U32)
    {
      var inner := InnerDigest(sgs, nbytes);
      ghost var pad := mem[ipad..ipad + 64];
      InsideKeyed(mem[..], ipad, sgs, nbytes, pageSize, pad);
      hide Inside, Entries, Xor, Same;
      out := Outer(inner, key);
    }
  }

  /** The first i of 64 bytes have been changed. */
  predicate PadsXored(m: Bytes, m': Bytes, a: nat, i: nat, x: Byte) {
    && |m'| == |m| && a + 64 <= |m|
    && (forall j :: a <= j < a + i && j < a + 64 ==> m'[j] == m[j] ^ x)
    && (forall j :: a + i <= j < a + 64 ==> m'[j] == m[j])
  }

  lemma XorStep(m: Bytes, m1: Bytes, m2: Bytes, a: nat, b: nat, i: nat, x: Byte, y: Byte, j: nat)
    requires i < 64 && j <= 64 && (a + 64 <= b || b + 64 <= a)
    requires PadsXored(m, m1, a, i, x) && PadsXored(m, m1, b, j, y)
    requires m2 == m1[a + i := m1[a + i] ^ x]
    ensures PadsXored(m, m2, a, i + 1, x) && PadsXored(m, m2, b, j, y)
  {
  }

  lemma XorAll(m: Bytes, m': Bytes, a: nat, k: Bytes, x: Byte)
    requires PadsXored(m, m', a, 64, x) && k == m[a..a + 64]
    ensures m'[a..a + 64] == Xor(k, Same(x, 64))
  {
  }

  lemma {:induction false} FromTail(e: Entry, sgs: seq<Entry>, i: nat, pageSize: nat)
    requires i <= |sgs|
    ensures From([e] + sgs, i + 1, pageSize) == From(sgs, i, pageSize)
    decreases |sgs| - i
  {
    if i < |sgs| { FromTail(e, sgs, i + 1, pageSize); }
  }

  /** The list that begins with the pad. */
  lemma Chained(m: Bytes, e: Entry, sgs: seq<Entry>, ipad: nat, nbytes: nat, pageSize: nat)
    requires 0 < pageSize && e == Buf(ipad, 64, pageSize) && ipad + 64 <= |m|
    requires nbytes <= |From(sgs, 0, pageSize)| && InMem(From(sgs, 0, pageSize)[..nbytes], |m|)
    ensures var all := From([e] + sgs, 0, pageSize);
            && 64 + nbytes <= |all| && InMem(all[..64 + nbytes], |m|)
            && Gather(m, all[..64 + nbytes]) == m[ipad..ipad + 64] + Gather(m, From(sgs, 0, pageSize)[..nbytes])
  {
    var all, rest := From([e] + sgs, 0, pageSize), From(sgs, 0, pageSize);
    assert e.page * pageSize + e.offset == ipad;
    FromTail(e, sgs, 0, pageSize);
    assert all == Run(ipad, 64) + rest;
    var some := all[..64 + nbytes];
    assert some == Run(ipad, 64) + rest[..nbytes];
    GatherRun(m, ipad, 64);
    GatherSplit(m, some, 64);
    assert some[..64] == Run(ipad, 64) && some[64..] == rest[..nbytes];
  }

  /** The entry for the pad goes in front. */
  lemma BufEntry(ipad: nat, sgs: seq<Entry>, pageSize: nat)
    requires Entries(sgs, pageSize)
    ensures Entries([Buf(ipad, 64, pageSize)] + sgs, pageSize)
  {
    var e := Buf(ipad, 64, pageSize);
    assert e.offset < pageSize;
  }

  /** The message of the inner digest: the pad and the text, if their length is a 32-bit number. */
  ghost function Inside(m: Bytes, ipad: nat, sgs: seq<Entry>, nbytes: nat, pageSize: nat): (r: Bytes)
    requires ipad + 64 <= |m| && nbytes < U32
    requires nbytes <= |From(sgs, 0, pageSize)| && InMem(From(sgs, 0, pageSize)[..nbytes], |m|)
  {
    if 64 + nbytes < U32 then m[ipad..ipad + 64] + Gather(m, From(sgs, 0, pageSize)[..nbytes])
    else m[ipad..ipad + (64 + nbytes - U32)]
  }

  lemma InsideIs(m: Bytes, e: Entry, sgs: seq<Entry>, ipad: nat, nbytes: nat, pageSize: nat)
    requires 0 < pageSize && e == Buf(ipad, 64, pageSize) && ipad + 64 <= |m| && nbytes < U32
    requires nbytes <= |From(sgs, 0, pageSize)| && InMem(From(sgs, 0, pageSize)[..nbytes], |m|)
    ensures var all, total := From([e] + sgs, 0, pageSize), (64 + nbytes) % U32;
            && total <= |all| && InMem(all[..total], |m|)
            && Gather(m, all[..total]) == Inside(m, ipad, sgs, nbytes, pageSize)
  {
    hide From, InMem, Gather;
    if 64 + nbytes < U32 {
      assert (64 + nbytes) % U32 == 64 + nbytes;
      Chained(m, e, sgs, ipad, nbytes, pageSize);
    } else {
      assert (64 + nbytes) % U32 == 64 + nbytes - U32;
      PadOnly(m, e, sgs, ipad, 64 + nbytes - U32, pageSize);
    }
  }

  lemma InsideKeyed(m: Bytes, ipad: nat, sgs: seq<Entry>, nbytes: nat, pageSize: nat, pad: Bytes)
    requires ipad + 64 <= |m| && nbytes < U32 && pad == m[ipad..ipad + 64]
    requires nbytes <= |From(sgs, 0, pageSize)| && InMem(From(sgs, 0, pageSize)[..nbytes], |m|)
    ensures Inside(m, ipad, sgs, nbytes, pageSize)
         == if 64 + nbytes < U32 then pad + Gather(m, From(sgs, 0, pageSize)[..nbytes]) else pad[..64 + nbytes - U32]
  {
  }

  /** The start of that list lies in the pad. */
  lemma PadOnly(m: Bytes, e: Entry, sgs: seq<Entry>, ipad: nat, n: nat, pageSize: nat)
    requires 0 < pageSize && e == Buf(ipad, 64, pageSize) && ipad + 64 <= |m| && n <= 64
    ensures var all := From([e] + sgs, 0, pageSize);
            n <= |all| && InMem(all[..n], |m|) && Gather(m, all[..n]) == m[ipad..ipad + n]
  {
    var all := From([e] + sgs, 0, pageSize);
    assert e.page * pageSize + e.offset == ipad;
    assert all[..n] == Run(ipad, n);
    GatherRun(m, ipad, n);
  }

  // ---- the wrapped length gives another result ----

  /** A digest on the last block: it tells short messages from long ones, and gives the last
      byte of a message of 65. */
  function LastBlock(h: Bytes, block: Bytes): (r: Bytes) {
    block
  }

  function Mark(h: Bytes): (r: Bytes)
    ensures |r| == 1
  {
    if |h| != 64 || h[60] != 0 then [1] else if h[57] < 2 then [0] else [h[0]]
  }

  function MarkHash(msg: Bytes): (r: Bytes)
    ensures |r| == 1
  {
    Digest(LastBlock, [], Mark, msg)
  }

  lemma {:induction false} FoldLast(h: Bytes, data: Bytes)
    requires |data| >= 64 && |data| % 64 == 0
    ensures Fold(LastBlock, h, data) == data[|data| - 64..]
    decreases |data|
  {
    if |data| == 64 {
      FoldBlock(LastBlock, h, data);
      assert data[0..] == data;
    } else {
      FoldLast(data[..64], data[64..]);
    }
  }

  /** The last block of a padded message ends with the length. */
  lemma LastOf(msg: Bytes)
    ensures |Padded(msg)| >= 64
    ensures var last := Padded(msg)[|Padded(msg)| - 64..];
            Fold(LastBlock, [], Padded(msg)) == last && last[56..] == LengthField(|msg|)
    ensures |msg| == 65 ==> Padded(msg)[|Padded(msg)| - 64] == msg[64]
  {
    hide LengthField;
    TailLength(msg);
    var padded, field := Padded(msg), LengthField(|msg|);
    var used := |Tail(msg)|;
    var fill := if used < 56 then 55 - used else 119 - used;
    assert padded == msg + [0x80] + Zeros(fill) + field;
    FoldLast([], padded);
    assert padded[|padded| - 8..] == field;
  }

  lemma SmallBytes()
    ensures LowByte(0) == 0 && LowByte(1) == 1 && LowByte(2) == 2 && LowByte(8) == 8
  {
  }

  lemma SecondByte(w: nat)
    ensures w < 512 ==> Le32(w)[1] < 2
    ensures w == 520 ==> Le32(w)[1] == 2
  {
    SmallBytes();
    hide LowByte;
    assert Le32(w)[1] == LowByte(w / 0x100);
    if w < 256 { assert w / 0x100 == 0; }
    else if w < 512 { assert w / 0x100 == 1; }
    else if w == 520 { assert w / 0x100 == 2; }
  }

  lemma FieldParts(len: nat)
    ensures LengthField(len)[1] == Le32(8 * len % U32)[1] && LengthField(len)[4] == Le32(8 * len / U32 % U32)[0]
  {
    hide Le32;
  }

  lemma Words(len: nat)
    ensures len <= 65 ==> 8 * len % U32 == 8 * len && 8 * len / U32 % U32 == 0
    ensures U32 <= len < U32 + 64 ==> 8 * len / U32 % U32 == 8
  {
    if U32 <= len < U32 + 64 { assert 8 * len / U32 == 8; }
  }

  lemma FieldBytes(len: nat)
    ensures len < 64 ==> LengthField(len)[1] < 2 && LengthField(len)[4] == 0
    ensures len == 65 ==> LengthField(len)[1] == 2 && LengthField(len)[4] == 0
    ensures U32 <= len < U32 + 64 ==> LengthField(len)[4] == 8
  {
    FieldParts(len);
    Words(len);
    SecondByte(8 * len);
    SmallBytes();
    hide LowByte, LengthField;
    assert Le32(0)[0] == LowByte(0) && Le32(8)[0] == LowByte(8);
  }

  lemma MarkIs(msg: Bytes)
    requires |msg| < U32 + 64
    ensures |msg| < 64 ==> MarkHash(msg) == [0]
    ensures |msg| >= U32 ==> MarkHash(msg) == [1]
    ensures |msg| == 65 ==> MarkHash(msg) == [msg[64]]
  {
    LastOf(msg);
    FieldBytes(|msg|);
    hide LengthField, Padded, Fold;
    var last := Padded(msg)[|Padded(msg)| - 64..];
    assert last[57] == last[56..][1] && last[60] == last[56..][4];
  }

  /** There is a digest with which the one-shot result is another than the one promised, for
      every key and every text so long that the length wraps around. */
  lemma OneShotWrong(key: Bytes, text: Bytes)
    requires U32 - 64 <= |text| < U32
    ensures WrappedMac(MarkHash, key, 64 + |text| - U32) != Mac(MarkHash, key, text)
  {
    var k := BlockKey(MarkHash, key);
    var outer, pad := Xor(k, Same(0x5c, 64)), Xor(k, Same(0x36, 64));
    hide Xor, Same, MarkHash;
    MarkIs(pad[..64 + |text| - U32]);
    MarkIs(pad + text);
    MarkIs(outer + [0]);
    MarkIs(outer + [1]);
  }
}
