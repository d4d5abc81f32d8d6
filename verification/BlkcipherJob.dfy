/**
 What a block cipher walk has to achieve: flat CBC from one sequence of addresses to another.
 Progress says how far it has come, whatever steps it takes.
 */
module BlkcipherJob {
  import opened Arithmetic
  import opened Lists
  import opened CbcMode
  import opened Cbc
  import opened ScatterWalk

  /** Source and destination addresses, memory at the start, the mode and its first IV; `own`
      is memory that belongs to the walk (IV and scratch). */
  datatype Job = Job(src: seq<nat>, dst: seq<nat>, m0: Bytes, mode: Mode, fn: Bytes -> Bytes, bs: nat, iv0: Bytes,
                     own: nat -> bool)

  predicate Apart(s: seq<nat>, d: seq<nat>) {
    forall i :: 0 <= i < |s| ==> s[i] !in d
  }

  ghost predicate NotOwn(own: nat -> bool, addrs: seq<nat>) {
    forall i :: 0 <= i < |addrs| ==> !own(addrs[i])
  }

  /** Every byte of a range belongs to the walk. */
  ghost predicate Owned(own: nat -> bool, a: nat, n: nat) {
    forall i: nat :: a <= i < a + n ==> own(i)
  }

  ghost predicate Good(job: Job) {
    && OnBlocks(job.fn, job.bs) && |job.iv0| == job.bs
    && |job.src| == |job.dst|
    && InMem(job.src, |job.m0|) && InMem(job.dst, |job.m0|)
    && Separate(job)
  }

  /** The lists are the same or have nothing in common; no byte is written twice. */
  ghost predicate Separate(job: Job) {
    && (job.src == job.dst || Apart(job.src, job.dst))
    && Distinct(job.dst)
    && NotOwn(job.own, job.src) && NotOwn(job.own, job.dst)
  }

  ghost function Data(job: Job): (r: Bytes)
    requires Good(job)
    ensures |r| == |job.src|
  {
    Gather(job.m0, job.src)
  }

  ghost function OutTo(job: Job, p: nat): (r: Bytes)
    requires Good(job) && p <= |job.src| && Multiple(p, job.bs)
  {
    Out(job.mode, job.fn, job.bs, job.iv0, Data(job)[..p])
  }

  ghost function IvTo(job: Job, p: nat): (r: Bytes)
    requires Good(job) && p <= |job.src| && Multiple(p, job.bs)
    ensures |r| == job.bs
  {
    NextIv(job.mode, job.fn, job.bs, job.iv0, Data(job)[..p])
  }

  /** The first p bytes are done: they are in the destination, the rest of the source is as it
      was, the IV is the one to go on with, and no other memory has changed. */
  ghost predicate Progress(job: Job, m: Bytes, p: nat, iv: nat)
    requires Good(job)
  {
    && |m| == |job.m0| && p <= |job.src| && Multiple(p, job.bs) && iv + job.bs <= |m|
    && DoneTo(job, m, p, iv)
  }

  ghost predicate DoneTo(job: Job, m: Bytes, p: nat, iv: nat)
    requires Good(job) && |m| == |job.m0| && p <= |job.src| && Multiple(p, job.bs) && iv + job.bs <= |m|
  {
    && InMem(job.dst[..p], |m|) && Gather(m, job.dst[..p]) == OutTo(job, p)
    && InMem(job.src[p..], |m|) && Gather(m, job.src[p..]) == Data(job)[p..]
    && m[iv..iv + job.bs] == IvTo(job, p)
    && Others(job, m)
  }

  ghost predicate Others(job: Job, m: Bytes) {
    |m| == |job.m0| && forall a: nat :: a < |m| && !job.own(a) && a !in job.dst ==> m[a] == job.m0[a]
  }

  lemma ClearOwn(own: nat -> bool, addrs: seq<nat>, a: nat, n: nat)
    requires NotOwn(own, addrs) && Owned(own, a, n)
    ensures Clear(addrs, a, n)
  {
    forall i | 0 <= i < |addrs| ensures !(a <= addrs[i] < a + n) {
      var x := addrs[i];
      assert !own(x);
    }
  }

  lemma NotOwnPart(own: nat -> bool, addrs: seq<nat>, i: nat, j: nat)
    requires NotOwn(own, addrs) && i <= j <= |addrs|
    ensures NotOwn(own, addrs[i..j]) && NotOwn(own, addrs[..j]) && NotOwn(own, addrs[i..])
  {
  }

  /** Scratch memory may change at any time. */
  lemma ScratchChange(job: Job, m: Bytes, m': Bytes, p: nat, iv: nat, a: nat, n: nat)
    requires Good(job) && Progress(job, m, p, iv)
    requires Only(m, m', a, n, a, n) && Owned(job.own, a, n) && Disjoint(a, n, iv, job.bs)
    ensures Progress(job, m', p, iv)
  {
    NotOwnPart(job.own, job.dst, 0, p);
    NotOwnPart(job.own, job.src, p, |job.src|);
    ClearOwn(job.own, job.dst[..p], a, n);
    ClearOwn(job.own, job.src[p..], a, n);
    GatherKept(m, m', job.dst[..p], a, n);
    GatherKept(m, m', job.src[p..], a, n);
    KeptTo(m, m', a, n, iv, iv + job.bs);
    assert Others(job, m');
  }

  /** q more bytes delivered. */
  ghost predicate Delivered(job: Job, m: Bytes, m': Bytes, p: nat, q: nat, iv: nat)
    requires Good(job)
  {
    && |m'| == |m| == |job.m0| && p + q <= |job.src| && Multiple(p, job.bs) && Multiple(q, job.bs) && iv + job.bs <= |m|
    && InMem(job.dst[p..p + q], |m|)
    && Gather(m', job.dst[p..p + q]) == Out(job.mode, job.fn, job.bs, IvTo(job, p), Data(job)[p..p + q])
    && m'[iv..iv + job.bs] == NextIv(job.mode, job.fn, job.bs, IvTo(job, p), Data(job)[p..p + q])
    && forall a: nat :: a < |m| && !job.own(a) && a !in job.dst[p..p + q] ==> m'[a] == m[a]
  }

  /** Addresses that are not among those written keep their bytes. */
  lemma GatherOutside(own: nat -> bool, m: Bytes, m': Bytes, addrs: seq<nat>, written: seq<nat>)
    requires InMem(addrs, |m|) && |m'| == |m| && NotOwn(own, addrs) && Apart(addrs, written)
    requires forall a: nat :: a < |m| && !own(a) && a !in written ==> m'[a] == m[a]
    ensures Gather(m', addrs) == Gather(m, addrs)
  {
    forall i | 0 <= i < |addrs| ensures m'[addrs[i]] == m[addrs[i]] {
      var a := addrs[i];
      assert !own(a) && a !in written;
    }
  }

  /** A stretch of distinct addresses has nothing in common with what comes before or after. */
  lemma StretchApart(d: seq<nat>, p: nat, q: nat)
    requires Distinct(d) && p + q <= |d|
    ensures Apart(d[..p], d[p..p + q]) && Apart(d[p + q..], d[p..p + q])
  {
    hide Distinct;
    var before, mid, after := d[..p], d[p..p + q], d[p + q..];
    assert d == before + (mid + after);
    DistinctParts(before, mid + after);
    DistinctParts(mid, after);
    forall i | 0 <= i < |before| ensures before[i] !in mid { assert before[i] !in mid + after; }
    forall i | 0 <= i < |after| ensures after[i] !in mid { OtherWay(mid, after, i); }
  }

  lemma PartsApart(job: Job, p: nat, q: nat)
    requires Good(job) && p + q <= |job.src|
    ensures Apart(job.dst[..p], job.dst[p..p + q])
    ensures Apart(job.src[p + q..], job.dst[p..p + q])
  {
    hide Distinct;
    StretchApart(job.dst, p, q);
    if job.src != job.dst { TailApart(job.src, job.dst, p, q); }
  }

  lemma TailApart(s: seq<nat>, d: seq<nat>, p: nat, q: nat)
    requires Apart(s, d) && p + q <= |s| == |d|
    ensures Apart(s[p + q..], d[p..p + q])
  {
    var tail, part := s[p + q..], d[p..p + q];
    forall i | 0 <= i < |tail| ensures tail[i] !in part {
      assert tail[i] == s[p + q + i] && s[p + q + i] !in d;
    }
  }

  lemma OtherWay(d: seq<nat>, s: seq<nat>, i: nat)
    requires (forall k :: 0 <= k < |d| ==> d[k] !in s) && i < |s|
    ensures s[i] !in d
  {
    forall k | 0 <= k < |d| ensures d[k] != s[i] { assert d[k] !in s; }
  }

  lemma OutMore(job: Job, p: nat, q: nat)
    requires Good(job) && p + q <= |job.src| && Multiple(p, job.bs) && Multiple(q, job.bs)
    ensures Multiple(p + q, job.bs)
    ensures OutTo(job, p + q) == OutTo(job, p) + Out(job.mode, job.fn, job.bs, IvTo(job, p), Data(job)[p..p + q])
    ensures IvTo(job, p + q) == NextIv(job.mode, job.fn, job.bs, IvTo(job, p), Data(job)[p..p + q])
  {
    hide Separate;
    MultipleAdd(p, q, job.bs);
    var a, b := Data(job)[..p], Data(job)[p..p + q];
    assert a + b == Data(job)[..p + q];
    OutConcat(job.mode, job.fn, job.bs, job.iv0, a, b);
  }

  lemma GatherMore(m: Bytes, addrs: seq<nat>, p: nat, q: nat)
    requires InMem(addrs, |m|) && p + q <= |addrs|
    ensures InMem(addrs[..p], |m|) && InMem(addrs[p..p + q], |m|) && InMem(addrs[..p + q], |m|)
    ensures Gather(m, addrs[..p + q]) == Gather(m, addrs[..p]) + Gather(m, addrs[p..p + q])
  {
    var both := addrs[..p + q];
    GatherSplit(m, both, p);
    assert both[..p] == addrs[..p] && both[p..] == addrs[p..p + q];
  }

  lemma GatherLess(m: Bytes, addrs: seq<nat>, p: nat, q: nat, data: Bytes)
    requires InMem(addrs, |m|) && p + q <= |addrs| && |data| == |addrs|
    requires InMem(addrs[p..], |m|) && Gather(m, addrs[p..]) == data[p..]
    ensures InMem(addrs[p + q..], |m|) && Gather(m, addrs[p + q..]) == data[p + q..]
    ensures InMem(addrs[p..p + q], |m|) && Gather(m, addrs[p..p + q]) == data[p..p + q]
  {
    GatherSplit(m, addrs[p..], q);
    assert addrs[p..][..q] == addrs[p..p + q] && addrs[p..][q..] == addrs[p + q..];
    assert data[p..][..q] == data[p..p + q] && data[p..][q..] == data[p + q..];
  }

  /** Delivering q bytes is progress. */
  lemma MoreProgress(job: Job, m: Bytes, m': Bytes, p: nat, q: nat, iv: nat)
    requires Good(job) && Progress(job, m, p, iv) && Delivered(job, m, m', p, q, iv)
    ensures Progress(job, m', p + q, iv)
  {
    PartsApart(job, p, q);
    OutMore(job, p, q);
    NotOwnPart(job.own, job.dst, 0, p);
    NotOwnPart(job.own, job.src, p + q, |job.src|);
    GatherLess(m, job.src, p, q, Data(job));
    GatherOutside(job.own, m, m', job.dst[..p], job.dst[p..p + q]);
    GatherOutside(job.own, m, m', job.src[p + q..], job.dst[p..p + q]);
    GatherMore(m', job.dst, p, q);
    OthersMore(job, m, m', p, q);
  }

  lemma OthersMore(job: Job, m: Bytes, m': Bytes, p: nat, q: nat)
    requires Others(job, m) && |m'| == |m| && p + q <= |job.dst|
    requires forall a: nat :: a < |m| && !job.own(a) && a !in job.dst[p..p + q] ==> m'[a] == m[a]
    ensures Others(job, m')
  {
    forall a: nat | a < |m| && !job.own(a) && a !in job.dst ensures m'[a] == job.m0[a] {
      assert a !in job.dst[p..p + q];
    }
  }

  /** The IV copied from one place to another. */
  lemma IvMoved(job: Job, m: Bytes, m': Bytes, p: nat, iv: nat, to: nat)
    requires Good(job) && Progress(job, m, p, iv)
    requires to + job.bs <= |m| && Only(m, m', to, job.bs, to, job.bs) && Owned(job.own, to, job.bs)
    requires m'[to..to + job.bs] == m[iv..iv + job.bs]
    ensures Progress(job, m', p, to)
  {
    NotOwnPart(job.own, job.dst, 0, p);
    NotOwnPart(job.own, job.src, p, |job.src|);
    ClearOwn(job.own, job.dst[..p], to, job.bs);
    ClearOwn(job.own, job.src[p..], to, job.bs);
    GatherKept(m, m', job.dst[..p], to, job.bs);
    GatherKept(m, m', job.src[p..], to, job.bs);
    assert Others(job, m');
  }

  /** What a stretch of q bytes comes out as, and the IV after it. */
  ghost function Piece(job: Job, p: nat, q: nat): (r: Bytes)
    requires Good(job) && p + q <= |job.src| && Multiple(p, job.bs) && Multiple(q, job.bs)
    ensures |r| == q
  {
    Out(job.mode, job.fn, job.bs, IvTo(job, p), Data(job)[p..p + q])
  }

  ghost function PieceIv(job: Job, p: nat, q: nat): (r: Bytes)
    requires Good(job) && p + q <= |job.src| && Multiple(p, job.bs) && Multiple(q, job.bs)
    ensures |r| == job.bs
  {
    NextIv(job.mode, job.fn, job.bs, IvTo(job, p), Data(job)[p..p + q])
  }

  /** Worked on in the destination itself. */
  lemma DeliveredThere(job: Job, m: Bytes, m': Bytes, p: nat, q: nat, dst: nat, iv: nat)
    requires Good(job) && |m| == |job.m0| && p + q <= |job.src| && Multiple(p, job.bs) && Multiple(q, job.bs)
    requires dst + q <= |m| && iv + job.bs <= |m| && Owned(job.own, iv, job.bs)
    requires job.dst[p..p + q] == Run(dst, q)
    requires Did(m, m', dst, q, iv, job.bs, Piece(job, p, q), PieceIv(job, p, q))
    ensures Delivered(job, m, m', p, q, iv)
  {
    hide Separate;
    GatherRun(m', dst, q);
    forall a: nat | a < |m| && !job.own(a) && a !in job.dst[p..p + q] ensures m'[a] == m[a] {
      OutsideRun(dst, q, a);
    }
  }

  /** Worked on in scratch memory and then written to the destination. */
  lemma DeliveredFrom(job: Job, m: Bytes, m1: Bytes, m2: Bytes, p: nat, q: nat, dst: nat, iv: nat)
    requires Good(job) && |m| == |job.m0| && p + q <= |job.src| && Multiple(p, job.bs) && Multiple(q, job.bs)
    requires dst + q <= |m| && iv + job.bs <= |m| && Owned(job.own, iv, job.bs) && Owned(job.own, dst, q)
    requires Did(m, m1, dst, q, iv, job.bs, Piece(job, p, q), PieceIv(job, p, q))
    requires InMem(job.dst[p..p + q], |m1|) && Scattered(m1, m2, job.dst[p..p + q], m1[dst..dst + q])
    ensures Delivered(job, m, m2, p, q, iv)
  {
    NotOwnPart(job.own, job.dst, p, p + q);
    ClearOwn(job.own, job.dst[p..p + q], iv, job.bs);
    BufKept(m1, m2, iv, job.bs, job.dst[p..p + q], q);
    assert job.dst[p..p + q][..q] == job.dst[p..p + q];
  }

  lemma CopyScatters(m: Bytes, m': Bytes, at: nat, q: nat, from: nat, addrs: seq<nat>)
    requires at + q <= |m| && from + q <= |m| && addrs == Run(at, q)
    requires Only(m, m', at, q, at, q) && m'[at..at + q] == m[from..from + q]
    ensures InMem(addrs, |m|) && Scattered(m, m', addrs, m[from..from + q])
  {
    GatherRun(m', at, q);
    forall a | 0 <= a < |m| && a !in addrs ensures m'[a] == m[a] { OutsideRun(at, q, a); }
  }

  /** At the end, n bytes of the message fill blocks: the destination is flat CBC of that much
      of the source, the IV is the one to go on with, and memory outside the destination and
      the walk's own is as it was. */
  ghost predicate Carried(job: Job, m: Bytes, n: nat, iv: nat)
    requires Good(job) && n <= |job.src| && Multiple(n, job.bs)
  {
    && |m| == |job.m0| && iv + job.bs <= |m| && InMem(job.dst[..n], |m|)
    && Gather(m, job.dst[..n]) == Out(job.mode, job.fn, job.bs, job.iv0, Gather(job.m0, job.src)[..n])
    && m[iv..iv + job.bs] == NextIv(job.mode, job.fn, job.bs, job.iv0, Gather(job.m0, job.src)[..n])
    && forall a: nat :: a < |m| && !job.own(a) && a !in job.dst ==> m[a] == job.m0[a]
  }

  lemma WholeMessage(job: Job, m: Bytes, n: nat, iv: nat)
    requires Good(job) && Progress(job, m, n, iv)
    ensures Carried(job, m, n, iv)
  {
    hide Separate;
  }
}
