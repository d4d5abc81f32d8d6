/**
 Walking over a scatterlist: a position in a list of stretches of memory, moved on page by page.
 What a position stands for is the sequence of the addresses still ahead of it.
 */
module ScatterWalk {
  import opened Arithmetic
  import opened Lists
  import opened CbcMode
  import opened Cbc

  /** An entry: `length` bytes from `offset` in the page numbered `page`. */
  datatype Entry = Entry(page: nat, offset: nat, length: nat)

  /** A scatter_walk, on a machine with pages of pageSize bytes. */
  datatype Walk = Walk(sgs: seq<Entry>, i: nat, offset: nat, pageSize: nat)

  function End(w: Walk): (e: nat)
    requires w.i < |w.sgs|
  {
    w.sgs[w.i].offset + w.sgs[w.i].length
  }

  predicate Ok(w: Walk) {
    && w.pageSize > 0 && w.i < |w.sgs|
    && (forall j :: 0 <= j < |w.sgs| ==> w.sgs[j].length > 0)
    && w.offset <= End(w)
  }

  /** scatterwalk_map: where the position is in memory. */
  function Addr(w: Walk): (a: nat)
    requires w.i < |w.sgs|
  {
    w.sgs[w.i].page * w.pageSize + w.offset
  }

  function PageLen(w: Walk): (n: nat)
    requires Ok(w)
  {
    var len := End(w) - w.offset;
    var thisPage := w.pageSize - w.offset % w.pageSize;
    if thisPage > len then len else thisPage
  }

  function Clamp(w: Walk, n: nat): (r: nat)
    requires Ok(w)
    ensures r <= n && r <= PageLen(w)
  {
    if n > PageLen(w) then PageLen(w) else n
  }

  function Advance(w: Walk, n: nat): (w': Walk) {
    w.(offset := w.offset + n)
  }

  /** scatterwalk_start. */
  function StartAt(w: Walk, i: nat): (w': Walk)
    requires i < |w.sgs|
  {
    w.(i := i, offset := w.sgs[i].offset)
  }

  /** scatterwalk_pagedone with more to come; at the end of the list it stays. */
  function PageDone(w: Walk): (w': Walk)
    requires Ok(w)
  {
    var up := w.offset + w.pageSize - 1;
    var offset := up - up % w.pageSize;
    if offset >= End(w) && w.i + 1 < |w.sgs| then StartAt(w, w.i + 1) else w.(offset := offset)
  }

  /** scatterwalk_done. */
  function Done(w: Walk, more: bool): (w': Walk)
    requires Ok(w)
  {
    if more && w.offset % w.pageSize == 0 then PageDone(w) else w
  }

  // ---- the addresses ahead ----

  function Run(a: nat, n: nat): (r: seq<nat>)
    ensures |r| == n
  {
    seq(n, k requires 0 <= k < n => a + k)
  }

  function From(sgs: seq<Entry>, i: nat, pageSize: nat): (r: seq<nat>)
    requires i <= |sgs|
    decreases |sgs| - i
  {
    if i == |sgs| then []
    else Run(sgs[i].page * pageSize + sgs[i].offset, sgs[i].length) + From(sgs, i + 1, pageSize)
  }

  function Rest(w: Walk): (r: seq<nat>)
    requires Ok(w)
  {
    Run(Addr(w), End(w) - w.offset) + From(w.sgs, w.i + 1, w.pageSize)
  }

  /** At the end of a page or of an entry, where PageDone may be called. */
  predicate AtEdge(w: Walk)
    requires Ok(w)
  {
    w.offset % w.pageSize == 0 || w.offset == End(w)
  }

  lemma RunSplit(a: nat, n: nat, k: nat)
    requires k <= n
    ensures Run(a, n)[..k] == Run(a, k) && Run(a, n)[k..] == Run(a + k, n - k)
  {
  }

  lemma RestAdvance(w: Walk, n: nat)
    requires Ok(w) && n <= PageLen(w)
    ensures Ok(Advance(w, n)) && |Rest(w)| >= n
    ensures Rest(Advance(w, n)) == Rest(w)[n..] && Rest(w)[..n] == Run(Addr(w), n)
  {
    RunSplit(Addr(w), End(w) - w.offset, n);
  }

  lemma AdvanceToEdge(w: Walk)
    requires Ok(w)
    ensures Ok(Advance(w, PageLen(w))) && AtEdge(Advance(w, PageLen(w)))
  {
    var w' := Advance(w, PageLen(w));
    if w'.offset != End(w) {
      DivMod(w.offset, w.pageSize);
      assert w.pageSize * (w.offset / w.pageSize + 1) == w.pageSize * (w.offset / w.pageSize) + w.pageSize;
      Quotient(w'.offset, w.pageSize, w.offset / w.pageSize + 1, 0);
    }
  }

  lemma RoundUp(x: nat, m: nat)
    requires m > 0
    ensures var up := x + m - 1; up - up % m >= x && (x % m == 0 ==> up - up % m == x)
  {
    var up := x + m - 1;
    RoundDown(up, m);
    if x % m == 0 {
      DivMod(x, m);
      Quotient(up, m, x / m, m - 1);
    }
  }

  lemma FromNext(w: Walk)
    requires Ok(w) && w.i + 1 < |w.sgs|
    ensures Rest(StartAt(w, w.i + 1)) == From(w.sgs, w.i + 1, w.pageSize)
  {
  }

  /** Rounding up to the next page, or going to the next entry, changes nothing ahead. */
  lemma RestPageDone(w: Walk)
    requires Ok(w) && AtEdge(w) && Rest(w) != []
    ensures Ok(PageDone(w)) && Rest(PageDone(w)) == Rest(w) && PageLen(PageDone(w)) > 0
  {
    RoundUp(w.offset, w.pageSize);
    if w.offset == End(w) {
      assert Run(Addr(w), 0) == [];
      assert w.i + 1 < |w.sgs|;
      FromNext(w);
      assert PageDone(w) == StartAt(w, w.i + 1);
    }
  }

  lemma RestDone(w: Walk, more: bool)
    requires Ok(w) && (more ==> Rest(w) != [])
    ensures Ok(Done(w, more)) && Rest(Done(w, more)) == Rest(w)
  {
    if more && w.offset % w.pageSize == 0 { RestPageDone(w); }
  }

  // ---- reading and writing along a walk ----

  predicate InMem(addrs: seq<nat>, len: nat) {
    forall i :: 0 <= i < |addrs| ==> addrs[i] < len
  }

  predicate Clear(addrs: seq<nat>, a: nat, n: nat) {
    forall i :: 0 <= i < |addrs| ==> !(a <= addrs[i] < a + n)
  }

  /** The bytes at a sequence of addresses. */
  function Gather(m: Bytes, addrs: seq<nat>): (r: Bytes)
    requires InMem(addrs, |m|)
    ensures |r| == |addrs|
  {
    seq(|addrs|, i requires 0 <= i < |addrs| => m[addrs[i]])
  }

  lemma GatherRun(m: Bytes, a: nat, n: nat)
    requires a + n <= |m|
    ensures InMem(Run(a, n), |m|) && Gather(m, Run(a, n)) == m[a..a + n]
  {
  }

  lemma GatherSplit(m: Bytes, addrs: seq<nat>, k: nat)
    requires InMem(addrs, |m|) && k <= |addrs|
    ensures InMem(addrs[..k], |m|) && InMem(addrs[k..], |m|)
    ensures Gather(m, addrs) == Gather(m, addrs[..k]) + Gather(m, addrs[k..])
    ensures Gather(m, addrs)[..k] == Gather(m, addrs[..k]) && Gather(m, addrs)[k..] == Gather(m, addrs[k..])
  {
  }

  /** Memory that differs only where these addresses are not has the same bytes there. */
  lemma GatherKept(m: Bytes, m': Bytes, addrs: seq<nat>, a: nat, n: nat)
    requires InMem(addrs, |m|) && Clear(addrs, a, n) && Only(m, m', a, n, a, n)
    ensures Gather(m', addrs) == Gather(m, addrs)
  {
  }

  lemma RunClear(a: nat, n: nat, b: nat, k: nat)
    requires Clear(Run(a, n), b, k) && n > 0
    ensures Disjoint(a, n, b, k) || k == 0
  {
    var x := if a >= b then a else b;
    if x < a + n { assert Run(a, n)[x - a] == x; }
  }

  lemma RunInMem(a: nat, n: nat, len: nat)
    requires InMem(Run(a, n), len) && n > 0
    ensures a + n <= len
  {
    assert Run(a, n)[n - 1] == a + n - 1;
  }

  /** One piece of scatterwalk_copychunks from the list: its bytes follow those before. */
  lemma PieceIn(m0: Bytes, m1: Bytes, m2: Bytes, buf: nat, k: nat, len: nat, x: nat, y: nat, addrs: seq<nat>, at: nat)
    requires x == buf + k && y == x + len && k + len <= |addrs| && buf + |addrs| <= |m0| && at + len <= |m0|
    requires InMem(addrs, |m0|) && Clear(addrs, buf, |addrs|) && addrs[k..k + len] == Run(at, len)
    requires Only(m0, m1, buf, k, buf, k) && m1[buf..x] == Gather(m0, addrs[..k])
    requires Only(m1, m2, x, len, x, len) && m2[x..y] == m1[at..at + len]
    ensures Only(m0, m2, buf, k + len, buf, k + len) && m2[buf..y] == Gather(m0, addrs[..k + len])
  {
    var piece := addrs[k..k + len];
    GatherRun(m1, at, len);
    GatherKept(m0, m1, piece, buf, k);
    KeptTo(m1, m2, x, len, buf, x);
    Joined(m2, buf, k, len, x, y);
    GatherSplit(m0, addrs[..k + len], k);
    assert addrs[..k + len][..k] == addrs[..k] && addrs[..k + len][k..] == piece;
  }

  method CopyPieceIn(mem: array<Byte>, buf: nat, w: Walk, ghost addrs: seq<nat>, k: nat, len: nat, ghost m0: Bytes)
    requires Ok(w) && 0 < len && k + len <= |addrs| && addrs[k..k + len] == Run(Addr(w), len)
    requires buf + |addrs| <= mem.Length == |m0| && InMem(addrs, mem.Length) && Clear(addrs, buf, |addrs|)
    requires Only(m0, mem[..], buf, k, buf, k) && mem[buf..buf + k] == Gather(m0, addrs[..k])
    modifies mem
    ensures Only(m0, mem[..], buf, k + len, buf, k + len) && mem[buf..buf + (k + len)] == Gather(m0, addrs[..k + len])
  {
    ghost var m1 := mem[..];
    var at, x := Addr(w), buf + k;
    RunInMem(at, len, mem.Length);
    Copy(mem, x, at, len);
    PieceIn(m0, m1, mem[..], buf, k, len, x, x + len, addrs, at);
  }

  /** w' is k bytes further along than w. */
  predicate Along(w: Walk, w': Walk, k: nat)
    requires Ok(w)
  {
    k <= |Rest(w)| && Ok(w') && Rest(w') == Rest(w)[k..] && w'.pageSize == w.pageSize
  }

  /** scatterwalk_copychunks, from the list into a buffer. */
  method CopyIn(mem: array<Byte>, buf: nat, w: Walk, n: nat, ghost addrs: seq<nat>) returns (w': Walk)
    requires Ok(w) && addrs <= Rest(w) && |addrs| == n
    requires buf + n <= mem.Length && InMem(addrs, mem.Length) && Clear(addrs, buf, n)
    modifies mem
    ensures Along(w, w', n)
    ensures mem[buf..buf + n] == Gather(old(mem[..]), addrs)
    ensures Only(old(mem[..]), mem[..], buf, n, buf, n)
  {
    hide Rest, PageDone, Advance;
    ghost var m0 := mem[..];
    w' := w;
    var k := 0;
    while true
      invariant 0 <= k <= n && Along(w, w', k) && (k == n ==> n == 0)
      invariant Only(m0, mem[..], buf, k, buf, k) && mem[buf..buf + k] == Gather(m0, addrs[..k])
      decreases n - k, if PageLen(w') == 0 then 1 else 0
    {
      var len := if PageLen(w') > n - k then n - k else PageLen(w');
      Onward(w, w', addrs, k, len);
      if len > 0 { CopyPieceIn(mem, buf, w', addrs, k, len, m0); }
      w' := Advance(w', len);
      k := k + len;
      if k == n { break; }
      w' := PageDone(w');
    }
    assert addrs[..k] == addrs;
  }

  /** The next piece: where it is, and where the walk is after it. */
  lemma Onward(w: Walk, w': Walk, addrs: seq<nat>, k: nat, len: nat)
    requires Ok(w) && addrs <= Rest(w) && k + len <= |addrs| && Along(w, w', k) && len <= PageLen(w')
    ensures addrs[k..k + len] == Run(Addr(w'), len)
    ensures Along(w, Advance(w', len), k + len)
    ensures len == PageLen(w') && k + len < |addrs| ==>
              Along(w, PageDone(Advance(w', len)), k + len) && PageLen(PageDone(Advance(w', len))) > 0
  {
    RestAdvance(w', len);
    assert addrs[k..k + len] == Rest(w)[k..][..len];
    assert Rest(w)[k..][len..] == Rest(w)[k + len..];
    if len == PageLen(w') && k + len < |addrs| {
      AdvanceToEdge(w');
      RestPageDone(Advance(w', len));
    }
  }

  /** Bytes written to a sequence of addresses, and nothing else. */
  predicate Scattered(m: Bytes, m': Bytes, addrs: seq<nat>, bytes: Bytes)
    requires InMem(addrs, |m|)
  {
    && |m'| == |m| && Gather(m', addrs) == bytes
    && forall a :: 0 <= a < |m| && a !in addrs ==> m'[a] == m[a]
  }

  lemma PieceOut(m0: Bytes, m1: Bytes, m2: Bytes, addrs: seq<nat>, bytes: Bytes, k: nat, len: nat, at: nat)
    requires k + len <= |addrs| == |bytes| && InMem(addrs, |m0|) && Distinct(addrs) && at + len <= |m0|
    requires addrs[k..k + len] == Run(at, len)
    requires InMem(addrs[..k], |m0|) && Scattered(m0, m1, addrs[..k], bytes[..k])
    requires Only(m1, m2, at, len, at, len) && m2[at..at + len] == bytes[k..k + len]
    ensures InMem(addrs[..k + len], |m0|) && Scattered(m0, m2, addrs[..k + len], bytes[..k + len])
  {
    var before, piece, now := addrs[..k], addrs[k..k + len], addrs[..k + len];
    assert now == before + piece;
    forall i | 0 <= i < k ensures !(at <= before[i] < at + len) {
      forall j | 0 <= j < len ensures piece[j] != before[i] {
        assert piece[j] == addrs[k + j] && before[i] == addrs[i];
        DistinctAt(addrs, i, k + j);
      }
      OutsideRun(at, len, before[i]);
    }
    GatherKept(m1, m2, before, at, len);
    GatherRun(m2, at, len);
    GatherSplit(m2, now, k);
    assert now[..k] == before && now[k..] == piece;
    assert bytes[..k + len] == bytes[..k] + bytes[k..k + len];
    forall a | 0 <= a < |m0| && a !in now ensures m2[a] == m0[a] {
      OutsideRun(at, len, a);
    }
  }

  lemma OutsideRun(at: nat, len: nat, a: nat)
    ensures a !in Run(at, len) ==> !(at <= a < at + len)
  {
    if at <= a < at + len { assert Run(at, len)[a - at] == a; }
  }

  method CopyPieceOut(mem: array<Byte>, buf: nat, w: Walk, ghost addrs: seq<nat>, k: nat, len: nat, ghost m0: Bytes,
                      ghost bytes: Bytes)
    requires Ok(w) && 0 < len && k + len <= |addrs| == |bytes| && addrs[k..k + len] == Run(Addr(w), len)
    requires buf + |addrs| <= mem.Length == |m0| && InMem(addrs, mem.Length) && Clear(addrs, buf, |addrs|) &&
             Distinct(addrs)
    requires bytes == m0[buf..buf + |addrs|]
    requires InMem(addrs[..k], |m0|) && Scattered(m0, mem[..], addrs[..k], bytes[..k])
    modifies mem
    ensures InMem(addrs[..k + len], |m0|) && Scattered(m0, mem[..], addrs[..k + len], bytes[..k + len])
  {
    ghost var m1 := mem[..];
    var at := Addr(w);
    RunInMem(at, len, mem.Length);
    BufKept(m0, m1, buf, |addrs|, addrs, k);
    SubSlice(m1, buf, |addrs|, k, k + len);
    Copy(mem, at, buf + k, len);
    PieceOut(m0, m1, mem[..], addrs, bytes, k, len, at);
  }

  lemma BufKept(m0: Bytes, m1: Bytes, buf: nat, n: nat, addrs: seq<nat>, k: nat)
    requires k <= |addrs| && buf + n <= |m0| == |m1| && Clear(addrs, buf, n)
    requires forall a :: 0 <= a < |m0| && a !in addrs[..k] ==> m1[a] == m0[a]
    ensures m1[buf..buf + n] == m0[buf..buf + n]
  {
    forall a | buf <= a < buf + n ensures m1[a] == m0[a] { ClearOf(addrs, k, buf, n, a); }
  }

  lemma ClearOf(addrs: seq<nat>, k: nat, buf: nat, n: nat, a: nat)
    requires k <= |addrs| && Clear(addrs, buf, n)
    ensures a in addrs[..k] ==> !(buf <= a < buf + n)
  {
    if a in addrs[..k] {
      var i :| 0 <= i < k && addrs[..k][i] == a;
      assert addrs[i] == a;
    }
  }

  /** scatterwalk_copychunks, from a buffer into the list. */
  method CopyOut(mem: array<Byte>, buf: nat, w: Walk, n: nat, ghost addrs: seq<nat>) returns (w': Walk)
    requires Ok(w) && addrs <= Rest(w) && |addrs| == n
    requires buf + n <= mem.Length && InMem(addrs, mem.Length) && Clear(addrs, buf, n) && Distinct(addrs)
    modifies mem
    ensures Along(w, w', n)
    ensures Scattered(old(mem[..]), mem[..], addrs, old(mem[..])[buf..buf + n])
  {
    hide Rest, PageDone, Advance;
    ghost var m0 := mem[..];
    ghost var bytes := m0[buf..buf + n];
    w' := w;
    var k := 0;
    while true
      invariant 0 <= k <= n && Along(w, w', k) && (k == n ==> n == 0)
      invariant InMem(addrs[..k], |m0|) && Scattered(m0, mem[..], addrs[..k], bytes[..k])
      decreases n - k, if PageLen(w') == 0 then 1 else 0
    {
      var len := if PageLen(w') > n - k then n - k else PageLen(w');
      Onward(w, w', addrs, k, len);
      if len > 0 { CopyPieceOut(mem, buf, w', addrs, k, len, m0, bytes); }
      w' := Advance(w', len);
      k := k + len;
      if k == n { break; }
      w' := PageDone(w');
    }
    assert addrs[..k] == addrs && bytes[..k] == bytes;
  }
}
