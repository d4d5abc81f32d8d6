/**
 Feeding a digest from a scatterlist: entry by entry, page by page, with an unaligned start
 of a page fed on its own.  The digest takes in the bytes of the list in order.
 */
module HashDigest {
  import opened CbcMode
  import opened ScatterWalk
  import opened Md5

  /** min(l, PAGE_SIZE - offset) in 32-bit arithmetic. */
  function FromPage(l: nat, offset: nat, pageSize: nat): (n: nat)
    requires offset < U32 && pageSize < U32
    ensures n <= l
  {
    var room := (U32 + pageSize - offset) % U32;
    if l < room then l else room
  }

  /** What is left of an entry can be fed: what `update2` takes for the end of a page is one, or
      there is no more of the entry then. */
  predicate Feedable(offset: nat, l: nat, pageSize: nat) {
    offset < U32 && l < U32 && (offset <= pageSize || offset + l <= U32 + pageSize)
  }

  /** Every entry can be fed; an empty one would be a link to another list. */
  predicate Entries(sgs: seq<Entry>, pageSize: nat) {
    && 0 < pageSize < U32
    && forall i :: 0 <= i < |sgs| ==> sgs[i].length > 0 && Feedable(sgs[i].offset, sgs[i].length, pageSize)
  }

  /** What is taken first is all, or ends where the page does, exactly for the entries that can
      be fed: for others the difference wraps around and the next piece is looked for where
      nothing of the entry is. */
  lemma FromPageExactlyWhen(l: nat, offset: nat, pageSize: nat)
    requires 0 < pageSize < U32 && offset < U32 && l < U32
    ensures var n := FromPage(l, offset, pageSize);
            (n == l || offset + n == pageSize) <==> Feedable(offset, l, pageSize)
    ensures FromPage(l, offset, pageSize) == 0 ==> l == 0 || offset == pageSize
  {
  }

  lemma SliceMore(m: Bytes, a: nat, k: nat, n: nat, msg: Bytes)
    requires a + k + n <= |m|
    ensures msg + m[a..a + k] + m[a + k..a + k + n] == msg + m[a..a + k + n]
  {
    assert m[a..a + k] + m[a + k..a + k + n] == m[a..a + k + n];
  }

  /** The body of the inner loop: what lies on one page, in one piece or two. */
  method UpdatePage<H>(md5: Md5Ctx<H>, mem: array<Byte>, p: nat, offset: nat, n: nat, align: nat, ghost msg: Bytes)
    requires mem != md5.block && md5.Holds(msg) && p + n <= mem.Length && align > 0
    modifies md5, md5.block
    ensures md5.Holds(msg + mem[p..p + n])
  {
    var bytes := 0;
    if offset % align != 0 {
      bytes := align - offset % align;
      if bytes > n { bytes := n; }
      md5.Update(mem[p..p + bytes], msg);
    } else {
      assert msg + mem[p..p] == msg;
    }
    SliceMore(mem[..], p, bytes, n - bytes, msg);
    md5.Update(mem[p + bytes..p + n], msg + mem[p..p + bytes]);
  }

  /** One entry, l bytes of it. */
  method UpdateEntry<H>(md5: Md5Ctx<H>, mem: array<Byte>, e: Entry, l: nat, pageSize: nat, align: nat, ghost msg: Bytes)
    requires mem != md5.block && md5.Holds(msg) && 0 < pageSize < U32 && align > 0
    requires 0 < l && Feedable(e.offset, l, pageSize) && e.page * pageSize + e.offset + l <= mem.Length
    modifies md5, md5.block
    ensures md5.Holds(msg + mem[e.page * pageSize + e.offset..e.page * pageSize + e.offset + l])
  {
    ghost var a := e.page * pageSize + e.offset;
    var page, offset, left := e.page * pageSize, e.offset, l;
    ghost var k := 0;
    assert msg + mem[a..a] == msg;
    while left > 0
      invariant 0 <= left <= l && k == l - left && 0 <= page && 0 <= offset
      invariant left > 0 ==> page + offset == a + k && Feedable(offset, left, pageSize)
      invariant md5.Holds(msg + mem[a..a + k])
      decreases left, if offset == pageSize then 1 else 0
    {
      var n := UpdateOnePage(md5, mem, page + offset, offset, left, pageSize, align, msg, a, k);
      page, offset, left := page + pageSize, 0, left - n;
      k := k + n;
    }
  }

  method UpdateOnePage<H>(md5: Md5Ctx<H>, mem: array<Byte>, p: nat, offset: nat, left: nat, pageSize: nat, align: nat,
                          ghost msg: Bytes, ghost a: nat, ghost k: nat)
    returns (n: nat)
    requires mem != md5.block && 0 < pageSize < U32 && align > 0 && Feedable(offset, left, pageSize)
    requires p == a + k && p + left <= mem.Length && md5.Holds(msg + mem[a..a + k])
    modifies md5, md5.block
    ensures n <= left && (n == left || offset + n == pageSize) && (n == 0 ==> left == 0 || offset == pageSize)
    ensures md5.Holds(msg + mem[a..a + (k + n)])
  {
    FromPageExactlyWhen(left, offset, pageSize);
    n := FromPage(left, offset, pageSize);
    UpdatePage(md5, mem, p, offset, n, align, msg + mem[a..a + k]);
    SliceMore(mem[..], a, k, n, msg);
  }

  /** update2: nbytes from the list. */
  method Update2<H>(md5: Md5Ctx<H>, mem: array<Byte>, sgs: seq<Entry>, nbytes: nat, pageSize: nat, align: nat,
                    ghost msg: Bytes)
    requires mem != md5.block && md5.Holds(msg) && Entries(sgs, pageSize) && align > 0
    requires nbytes <= |From(sgs, 0, pageSize)| && InMem(From(sgs, 0, pageSize)[..nbytes], mem.Length)
    modifies md5, md5.block
    ensures md5.Holds(msg + Gather(mem[..], From(sgs, 0, pageSize)[..nbytes]))
  {
    ghost var addrs, k := From(sgs, 0, pageSize), 0;
    var left, i := nbytes, 0;
    assert addrs[..0] == [] && msg + Gather(mem[..], []) == msg && addrs[0..] == addrs;
    while left > 0
      invariant 0 <= i <= |sgs| && 0 <= left && k + left == nbytes && 0 <= k <= |addrs|
      invariant InMem(addrs[..k], mem.Length) && md5.Holds(msg + Gather(mem[..], addrs[..k]))
      invariant left > 0 ==> addrs[k..] == From(sgs, i, pageSize)
      decreases left
    {
      var l;
      l, k := UpdateNext(md5, mem, sgs, i, left, pageSize, align, msg, addrs, k, nbytes);
      left := left - l;
      i := i + 1;
    }
  }

  method UpdateNext<H>(md5: Md5Ctx<H>, mem: array<Byte>, sgs: seq<Entry>, i: nat, left: nat, pageSize: nat, align: nat,
                       ghost msg: Bytes, ghost addrs: seq<nat>, ghost k: nat, ghost nbytes: nat)
    returns (l: nat, ghost k': nat)
    requires mem != md5.block && i <= |sgs| && Entries(sgs, pageSize) && align > 0
    requires left > 0 && k + left == nbytes <= |addrs| && InMem(addrs[..nbytes], mem.Length)
    requires addrs[k..] == From(sgs, i, pageSize)
    requires InMem(addrs[..k], mem.Length) && md5.Holds(msg + Gather(mem[..], addrs[..k]))
    modifies md5, md5.block
    ensures i < |sgs| && 0 < l <= left && k' == k + l
    ensures InMem(addrs[..k'], mem.Length) && md5.Holds(msg + Gather(mem[..], addrs[..k']))
    ensures left > l ==> addrs[k'..] == From(sgs, i + 1, pageSize)
  {
    NextEntry(sgs, i, pageSize, addrs, k, left, nbytes, mem[..], msg);
    l := if sgs[i].length > left then left else sgs[i].length;
    k' := k + l;
    UpdateEntry(md5, mem, sgs[i], l, pageSize, align, msg + Gather(mem[..], addrs[..k]));
  }

  function Base(e: Entry, pageSize: nat): (a: nat) {
    e.page * pageSize + e.offset
  }

  /** What an entry contributes, and where the list goes on. */
  lemma NextEntry(sgs: seq<Entry>, i: nat, pageSize: nat, addrs: seq<nat>, k: nat, left: nat, nbytes: nat, m: Bytes,
                  msg: Bytes)
    requires i <= |sgs| && Entries(sgs, pageSize) && left > 0 && k + left == nbytes <= |addrs|
    requires addrs[k..] == From(sgs, i, pageSize) && InMem(addrs[..nbytes], |m|)
    ensures i < |sgs|
    ensures var l := if sgs[i].length > left then left else sgs[i].length;
            && Base(sgs[i], pageSize) + l <= |m|
            && InMem(addrs[..k], |m|) && InMem(addrs[..k + l], |m|)
            && msg + Gather(m, addrs[..k]) + m[Base(sgs[i], pageSize)..Base(sgs[i], pageSize) + l] ==
               msg + Gather(m, addrs[..k + l])
            && (left > l ==> addrs[k + l..] == From(sgs, i + 1, pageSize))
  {
    var a, l := Base(sgs[i], pageSize), if sgs[i].length > left then left else sgs[i].length;
    RunSplit(a, sgs[i].length, l);
    var piece := addrs[k..k + l];
    assert piece == addrs[k..][..l];
    assert piece == Run(a, l);
    assert piece[l - 1] == addrs[..nbytes][k + l - 1];
    GatherRun(m, a, l);
    assert addrs[..nbytes][..k + l] == addrs[..k + l];
    GatherSplit(m, addrs[..k + l], k);
    assert addrs[..k + l][..k] == addrs[..k] && addrs[..k + l][k..] == piece;
    assert msg + Gather(m, addrs[..k]) + Gather(m, piece) == msg + (Gather(m, addrs[..k]) + Gather(m, piece));
    assert addrs[k + l..] == addrs[k..][l..];
  }
}
