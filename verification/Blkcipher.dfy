/**
 The block cipher walk: step by step it offers the mode a stretch of source and destination
 in place, a copy in a scratch page, or one block gathered from several pieces.
 */
module Blkcipher {
  import opened Arithmetic
  import opened Lists
  import opened Scratch
  import opened CbcMode
  import opened Cbc
  import opened ScatterWalk
  import opened BlkcipherJob

  /** What a walk offers: the fields that matter to a step. */
  datatype Offer = Offer(inw: Walk, outw: Walk, total: nat, nbytes: nat, slow: bool, copy: bool,
                         src: nat, dst: nat, iv: nat, pageMem: nat)

  /** Where the walk to the destination stands. */
  ghost predicate Where(job: Job, p: nat, v: Offer) {
    && Ok(v.inw) && Ok(v.outw) && p <= |job.src| == |job.dst| && v.total == |job.src| - p
    && job.dst[p..] <= Rest(v.outw)
  }

  /** The source bytes at src, and room at dst, apart from the IV. */
  ghost predicate What(job: Job, m: Bytes, p: nat, v: Offer)
    requires Good(job)
  {
    && |m| == |job.m0| && p + v.nbytes <= |job.src| && Ranges(|m|, v.dst, v.src, v.nbytes, v.iv, job.bs)
    && m[v.src..v.src + v.nbytes] == Data(job)[p..p + v.nbytes]
    && Owned(job.own, v.iv, job.bs)
  }

  /** Whether it is one block gathered in the buffer, a copy in the page, or the memory itself. */
  ghost predicate How(job: Job, p: nat, v: Offer)
    requires Ok(v.inw) && Ok(v.outw) && p + v.nbytes <= |job.src|
  {
    if v.slow then v.nbytes == job.bs && job.src[p + v.nbytes..] <= Rest(v.inw) && Owned(job.own, v.dst, v.nbytes)
    else && job.src[p..] <= Rest(v.inw) && v.nbytes <= PageLen(v.inw) && v.nbytes <= PageLen(v.outw)
         && v.dst == if v.copy then v.pageMem else Addr(v.outw)
  }

  /** A step has been offered. */
  ghost predicate Loaded(job: Job, m: Bytes, p: nat, v: Offer)
    requires Good(job)
  {
    Where(job, p, v) && What(job, m, p, v) && How(job, p, v)
  }

  class BlkcipherWalk {
    const mem: array<Byte>
    const bs: nat
    const align: nat       // alignmask + 1
    const ctxAlign: nat    // crypto_tfm_ctx_alignment()
    const pageSize: nat
    const pageMem: nat     // what __get_free_page returns
    const bufMem: nat      // what kmalloc returns
    const info: nat        // desc->info
    var inw: Walk
    var outw: Walk
    var total: nat
    var nbytes: nat
    var slow: bool
    var copy: bool
    var src: nat
    var dst: nat
    var iv: nat
    var page: bool
    var buffer: Option<nat>

    constructor (mem: array<Byte>, bs: nat, align: nat, ctxAlign: nat, pageSize: nat, pageMem: nat, bufMem: nat,
                 info: nat,
                 inw: Walk, outw: Walk, total: nat)
      ensures this.mem == mem && this.bs == bs && this.align == align && this.ctxAlign == ctxAlign
      ensures this.pageSize == pageSize && this.pageMem == pageMem && this.bufMem == bufMem && this.info == info
      ensures this.inw == inw && this.outw == outw && this.total == total
    {
      this.mem, this.bs, this.align, this.ctxAlign := mem, bs, align, ctxAlign;
      this.pageSize, this.pageMem, this.bufMem, this.info := pageSize, pageMem, bufMem, info;
      this.inw, this.outw, this.total := inw, outw, total;
      nbytes, slow, copy, src, dst, iv, page, buffer := 0, false, false, 0, 0, 0, false, None;
    }

    /** How much is allocated for the buffer. */
    ghost function BufLen(): (n: int)
      requires align > 0 && ctxAlign > 0
    {
      if info % align == 0 then SlowSize(align, ctxAlign, bs) else IvSize(align, ctxAlign, bs, bs)
    }

    /** The walk's own memory: the IV, a page and a buffer, apart from one another.  The layout
        is looked at only where it is asked for. */
    ghost predicate Setup(job: Job) {
      && Good(job) && job.bs == bs && |job.m0| == mem.Length && align > 0 && pageSize > 0 && info + bs <= mem.Length
      && Layout(job)
    }

    ghost predicate Layout(job: Job) {
      && Sizes(align, ctxAlign, bs, pageSize) && pageSize % ctxAlign == 0
      && bufMem % ctxAlign == 0 && pageMem % pageSize == 0
      && BufLen() >= 0
      && pageMem + pageSize <= mem.Length && bufMem + BufLen() <= mem.Length && info + bs <= mem.Length
      && Disjoint(pageMem, pageSize, bufMem, BufLen()) && Disjoint(pageMem, pageSize, info, bs)
      && Disjoint(bufMem, BufLen(), info, bs)
      && Owned(job.own, pageMem, pageSize) && Owned(job.own, bufMem, BufLen()) && Owned(job.own, info, bs)
    }

    /** Where the IV and the buffer are: the IV in its own place, or copied into the buffer. */
    ghost predicate Placed()
      reads this`iv, this`buffer
    {
      && align > 0 && bs > 0 && pageSize > 0
      && if info % align == 0
         then iv == info && (buffer == None || buffer == Some(bufMem) || buffer == Some(pageMem))
         else buffer == Some(bufMem) && iv == Place(bufMem, align, bs, bs, pageSize).iv
    }

    /** p bytes are behind both walks. */
    ghost predicate Behind(job: Job, p: nat)
      reads this`inw, this`outw, this`total
    {
      Moved(job, p, inw, outw) && total == |job.src| - p
    }

    ghost function Now(): (v: Offer)
      reads this
    {
      Offer(inw, outw, total, nbytes, slow, copy, src, dst, iv, pageMem)
    }

    lemma IvOwned(job: Job)
      requires Setup(job) && Placed()
      ensures iv + bs <= mem.Length && Owned(job.own, iv, bs) && Disjoint(pageMem, pageSize, iv, bs)
      ensures pageMem + pageSize <= mem.Length && Owned(job.own, pageMem, pageSize)
      ensures info + bs <= mem.Length && Owned(job.own, info, bs)
    {
      hide Separate;
      BufSpots(bufMem, align, ctxAlign, bs, pageSize);
      if info % align != 0 { OwnedPart(job.own, bufMem, BufLen(), iv, bs); }
    }

    lemma SpotFacts(job: Job)
      requires Setup(job) && Placed() && buffer.Some?
      ensures var r := Place(buffer.value, align, bs, bs, pageSize);
              && r.dst + bs <= r.src && r.src + bs <= mem.Length
              && Owned(job.own, r.dst, bs) && Owned(job.own, r.src, bs)
              && Disjoint(r.dst, bs, iv, bs) && Disjoint(r.src, bs, iv, bs)
    {
      hide Separate;
      var r := Place(buffer.value, align, bs, bs, pageSize);
      if buffer.value == bufMem {
        BufSpots(bufMem, align, ctxAlign, bs, pageSize);
        OwnedPart(job.own, bufMem, BufLen(), r.dst, bs);
        OwnedPart(job.own, bufMem, BufLen(), r.src, bs);
      } else {
        PageSpots(pageMem, align, ctxAlign, bs, pageSize);
        OwnedPart(job.own, pageMem, pageSize, r.dst, bs);
        OwnedPart(job.own, pageMem, pageSize, r.src, bs);
      }
    }

    /** Where the source and destination spots are in the buffer. */
    method FindSpots(ghost job: Job)
      requires Setup(job) && Placed()
      modifies this`buffer, this`src, this`dst
      ensures Placed() && SpotsOk(job, dst, src, iv)
    {
      hide Separate, Layout;
      if buffer == None { buffer := Some(if page then pageMem else bufMem); }
      SpotFacts(job);
      IvOwned(job);
      dst := GetSpot(Align(buffer.value, align), bs, pageSize);
      src := GetSpot(dst + bs, bs, pageSize);
    }

    /** blkcipher_next_slow: one block, gathered into the buffer. */
    method NextSlow(ghost job: Job, ghost p: nat)
      requires Good(job) && job.bs == bs && |job.m0| == mem.Length && SpotsOk(job, dst, src, iv)
      requires Behind(job, p) && total >= bs && Progress(job, mem[..], p, iv)
      modifies this`inw, this`nbytes, this`slow, mem
      ensures inw.pageSize == old(inw.pageSize) && nbytes == bs
      ensures Progress(job, mem[..], p, iv) && Loaded(job, mem[..], p, Now())
    {
      hide Separate, DoneTo;
      ghost var m1, addrs, before := mem[..], job.src[p..p + bs], inw;
      SlowAddrs(job, m1, inw, p, addrs, dst, src, iv);
      GatherBlock(addrs);
      AfterSlow(job, m1, mem[..], p, addrs, before, Now());
    }

    /** The IV back to where the caller keeps it. */
    method ReturnIv(ghost job: Job, ghost p: nat)
      requires Setup(job) && Placed() && Progress(job, mem[..], p, iv)
      modifies mem
      ensures Progress(job, mem[..], p, info)
    {
      hide Separate, DoneTo, Layout;
      ghost var m1 := mem[..];
      IvOwned(job);
      if iv != info {
        Copy(mem, info, iv, bs);
        IvMoved(job, m1, mem[..], p, iv, info);
      }
    }

    /** blkcipher_walk_next: offers a step, or fails when less than a block is left. */
    method WalkNext(ghost job: Job, ghost p: nat) returns (err: bool)
      requires Setup(job) && Placed() && Behind(job, p) && Progress(job, mem[..], p, iv)
      requires inw.pageSize == pageSize == outw.pageSize
      modifies this, mem
      ensures Placed() && inw.pageSize == pageSize == outw.pageSize
      ensures err <==> |job.src| - p < bs
      ensures err ==> nbytes == 0 && Progress(job, mem[..], p, info)
      ensures !err ==> nbytes > 0 && Progress(job, mem[..], p, iv) && Loaded(job, mem[..], p, Now())
    {
      hide Separate, DoneTo, Layout;
      err := total < bs;
      if err {
        ReturnIv(job, p);
        total, nbytes := 0, 0;
      } else {
        OfferStep(job, p);
      }
    }

    method OfferStep(ghost job: Job, ghost p: nat)
      requires Setup(job) && Placed() && Behind(job, p) && Progress(job, mem[..], p, iv)
      requires total >= bs && inw.pageSize == pageSize
      modifies this`slow, this`copy, this`page, this`buffer, this`src, this`dst, this`inw, this`nbytes, mem
      ensures Placed() && inw.pageSize == pageSize && nbytes > 0
      ensures Progress(job, mem[..], p, iv) && Loaded(job, mem[..], p, Now())
    {
      hide Separate, DoneTo, Layout;
      var n := ChoosePath();
      if n < bs {
        OfferBlock(job, p);
      } else {
        OfferStretch(job, p, n);
      }
    }

    /** Whether to copy, which depends on alignment, and how far the step can go. */
    method ChoosePath() returns (n: nat)
      requires Ok(inw) && Ok(outw) && align > 0
      modifies this`slow, this`copy, this`page
      ensures !slow && n <= total && n <= PageLen(inw) && n <= PageLen(outw)
      ensures copy <==> inw.offset % align != 0 || outw.offset % align != 0
    {
      slow, copy := false, false;
      if inw.offset % align != 0 || outw.offset % align != 0 {
        copy, page := true, true;
      }
      n := Clamp(outw, Clamp(inw, total));
    }

    method OfferBlock(ghost job: Job, ghost p: nat)
      requires Setup(job) && Placed() && Behind(job, p) && Progress(job, mem[..], p, iv) && total >= bs
      modifies this`buffer, this`src, this`dst, this`inw, this`nbytes, this`slow, mem
      ensures Placed() && inw.pageSize == old(inw.pageSize) && nbytes == bs
      ensures Progress(job, mem[..], p, iv) && Loaded(job, mem[..], p, Now())
    {
      hide Separate, DoneTo, Layout;
      FindSpots(job);
      NextSlow(job, p);
    }

    method OfferStretch(ghost job: Job, ghost p: nat, n: nat)
      requires Setup(job) && Placed() && Behind(job, p) && Progress(job, mem[..], p, iv) && !slow
      requires bs <= n <= total && n <= PageLen(inw) && n <= PageLen(outw) && inw.pageSize == pageSize
      modifies this`src, this`dst, this`nbytes, mem
      ensures nbytes == n && Progress(job, mem[..], p, iv) && Loaded(job, mem[..], p, Now())
    {
      hide Separate, DoneTo, Layout;
      nbytes := n;
      PageFacts(job);
      if copy {
        NextCopy(job, p);
      } else {
        NextFast(job, p);
      }
    }

    lemma PageFacts(job: Job)
      requires Setup(job) && Placed()
      ensures PageOk(job, pageMem, pageSize, iv)
    {
      hide Separate, Layout;
      IvOwned(job);
    }

    /** blkcipher_next_copy: the stretch is copied to the page and worked on there. */
    method NextCopy(ghost job: Job, ghost p: nat)
      requires Good(job) && job.bs == bs && |job.m0| == mem.Length && PageOk(job, pageMem, pageSize, iv)
      requires Behind(job, p) && Progress(job, mem[..], p, iv) && !slow && copy &&
               Fits(bs, nbytes, total, inw, outw, pageSize)
      modifies this`src, this`dst, mem
      ensures Progress(job, mem[..], p, iv) && Loaded(job, mem[..], p, Now())
    {
      hide Separate, DoneTo;
      ghost var m1, addrs := mem[..], job.src[p..p + nbytes];
      Stretch(job.src, |job.m0|, inw, p, nbytes);
      CopyToPage(addrs);
      AfterCopy(job, m1, mem[..], p, addrs, Now(), pageSize);
    }

    method CopyToPage(ghost addrs: seq<nat>)
      requires Ok(inw) && addrs == Run(Addr(inw), nbytes)
      requires Addr(inw) + nbytes <= mem.Length && pageMem + nbytes <= mem.Length
      modifies this`src, this`dst, mem
      ensures src == dst == pageMem && Copied(old(mem[..]), mem[..], pageMem, addrs)
    {
      GatherRun(mem[..], Addr(inw), nbytes);
      Copy(mem, pageMem, Addr(inw), nbytes);
      src, dst := pageMem, pageMem;
    }

    /** blkcipher_next_fast: the memory itself. */
    method NextFast(ghost job: Job, ghost p: nat)
      requires Good(job) && job.bs == bs && |job.m0| == mem.Length && PageOk(job, pageMem, pageSize, iv)
      requires Behind(job, p) && Progress(job, mem[..], p, iv) && !slow && !copy &&
               Fits(bs, nbytes, total, inw, outw, pageSize)
      modifies this`src, this`dst
      ensures Progress(job, mem[..], p, iv) && Loaded(job, mem[..], p, Now())
    {
      hide Separate, DoneTo;
      src := Addr(inw);
      dst := if Addr(inw) == Addr(outw) then src else Addr(outw);
      FastWhat(job, mem[..], p, Now());
    }

    /** blkcipher_done_slow: the block goes from the buffer to the destination. */
    method DoneSlow(ghost job: Job, ghost p: nat, ghost m1: Bytes)
      requires Good(job) && job.bs == bs && |job.m0| == mem.Length
      requires Where(job, p, Now()) && total >= bs && Owned(job.own, dst, bs) && Owned(job.own, iv, bs)
      requires Worked(job, m1, mem[..], p, bs, dst, iv)
      modifies this`outw, mem
      ensures Along(old(outw), outw, bs) && Delivered(job, m1, mem[..], p, bs, iv)
    {
      hide Separate, Distinct, Delivered, Owned, Gather, Did, Rest;
      ghost var m, addrs := mem[..], job.dst[p..p + bs];
      SlowTarget(job, p, Now(), addrs);
      ScatterBlock(addrs);
      DeliveredFrom(job, m1, m, mem[..], p, bs, dst, iv);
    }

    method ScatterBlock(ghost addrs: seq<nat>)
      requires Ok(outw) && addrs <= Rest(outw) && |addrs| == bs && dst + bs <= mem.Length
      requires InMem(addrs, mem.Length) && Clear(addrs, dst, bs) && Distinct(addrs)
      modifies this`outw, mem
      ensures Along(old(outw), outw, bs)
      ensures Scattered(old(mem[..]), mem[..], addrs, old(mem[..])[dst..dst + bs])
    {
      outw := CopyOut(mem, dst, outw, bs, addrs);
    }

    /** blkcipher_done_fast: a copy goes from the page to the destination, and both walks move on. */
    method DoneFast(q: nat, ghost job: Job, ghost p: nat, ghost m1: Bytes)
      requires Good(job) && job.bs == bs && |job.m0| == mem.Length && Loaded(job, m1, p, Now()) && !slow
      requires PageOk(job, pageMem, pageSize, iv) && q <= nbytes <= pageSize && q > 0
      requires Multiple(p, bs) && Multiple(q, bs) && Worked(job, m1, mem[..], p, q, dst, iv)
      modifies this`inw, this`outw, mem
      ensures Along(old(inw), inw, q) && Along(old(outw), outw, q) && Delivered(job, m1, mem[..], p, q, iv)
    {
      hide Separate;
      Stretch(job.dst, mem.Length, outw, p, q);
      if copy {
        CopyFromPage(q, job, p, m1);
      } else {
        DeliveredThere(job, m1, mem[..], p, q, dst, iv);
      }
      RestAdvance(inw, q);
      RestAdvance(outw, q);
      inw, outw := Advance(inw, q), Advance(outw, q);
    }

    method CopyFromPage(q: nat, ghost job: Job, ghost p: nat, ghost m1: Bytes)
      requires Good(job) && job.bs == bs && |job.m0| == mem.Length && p + q <= |job.src| == |job.dst|
      requires PageOk(job, pageMem, pageSize, iv) && q <= pageSize && Ok(outw)
      requires job.dst[p..p + q] == Run(Addr(outw), q) && Addr(outw) + q <= mem.Length
      requires Multiple(p, bs) && Multiple(q, bs) && Worked(job, m1, mem[..], p, q, pageMem, iv)
      modifies mem
      ensures Delivered(job, m1, mem[..], p, q, iv)
    {
      hide Delivered, Piece, PieceIv, Good, Gather, Only, Owned, Separate;
      ghost var m := mem[..];
      Copy(mem, Addr(outw), pageMem, q);
      CopyScatters(m, mem[..], Addr(outw), q, pageMem, job.dst[p..p + q]);
      OwnedPart(job.own, pageMem, pageSize, pageMem, q);
      DeliveredFrom(job, m1, m, mem[..], p, q, pageMem, iv);
    }

    /** The first half of blkcipher_walk_done: q bytes are delivered and the walks move on. */
    method Deliver(q: nat, ghost job: Job, ghost p: nat, ghost m1: Bytes)
      requires Good(job) && job.bs == bs && |job.m0| == mem.Length && PageOk(job, pageMem, pageSize, iv)
      requires Loaded(job, m1, p, Now()) && q <= nbytes && q > 0 && (slow ==> q == bs) && inw.pageSize == pageSize
      requires Worked(job, m1, mem[..], p, q, dst, iv)
      modifies this`inw, this`outw, mem
      ensures Delivered(job, m1, mem[..], p, q, iv)
      ensures inw.pageSize == old(inw.pageSize) && outw.pageSize == old(outw.pageSize)
      ensures Moved(job, p + q, inw, outw)
    {
      hide Separate;
      ghost var v := Now();
      if slow {
        DoneSlow(job, p, m1);
      } else {
        DoneFast(q, job, p, m1);
      }
      MovedOn(job, p, q, v, inw, outw);
    }

    method DeliverMore(q: nat, ghost job: Job, ghost p: nat, ghost m1: Bytes)
      requires Good(job) && job.bs == bs && |job.m0| == mem.Length && PageOk(job, pageMem, pageSize, iv)
      requires Loaded(job, m1, p, Now()) && q <= nbytes && q > 0 && (slow ==> q == bs) && inw.pageSize == pageSize
      requires Worked(job, m1, mem[..], p, q, dst, iv) && Progress(job, m1, p, iv)
      modifies this`inw, this`outw, mem
      ensures Progress(job, mem[..], p + q, iv) && Moved(job, p + q, inw, outw)
      ensures inw.pageSize == old(inw.pageSize) && outw.pageSize == old(outw.pageSize)
    {
      hide Separate, DoneTo;
      Deliver(q, job, p, m1);
      MoreProgress(job, m1, mem[..], p, q, iv);
    }

    method MoveOn(q: nat, ghost job: Job, ghost p': nat)
      requires q <= total && Moved(job, p', inw, outw) && total - q == |job.src| - p'
      modifies this`inw, this`outw, this`total, this`nbytes
      ensures Behind(job, p') && nbytes == total
      ensures inw.pageSize == old(inw.pageSize) && outw.pageSize == old(outw.pageSize)
    {
      total := total - q;
      StillAhead(job, p', total, inw, outw);
      inw, outw := Done(inw, total > 0), Done(outw, total > 0);
      nbytes := total;
    }

    method FinishStep(q: nat, ghost job: Job, ghost p: nat, ghost m1: Bytes) returns (ghost p': nat)
      requires Good(job) && job.bs == bs && |job.m0| == mem.Length && PageOk(job, pageMem, pageSize, iv)
      requires Loaded(job, m1, p, Now()) && q <= nbytes && q > 0 && (slow ==> q == bs) && inw.pageSize == pageSize
      requires Worked(job, m1, mem[..], p, q, dst, iv) && Progress(job, m1, p, iv)
      modifies this`inw, this`outw, this`total, this`nbytes, mem
      ensures p' == p + q && Behind(job, p') && nbytes == total && Progress(job, mem[..], p', iv)
      ensures inw.pageSize == old(inw.pageSize) && outw.pageSize == old(outw.pageSize)
    {
      hide Progress, Worked, Loaded, PageOk, Delivered, Separate, DoneTo;
      p' := p + q;
      LoadedFacts(job, m1, p, Now());
      DeliverMore(q, job, p, m1);
      MoveOn(q, job, p');
    }

    /** blkcipher_walk_done: `left` bytes of the step were not used.  When nothing is left the
        walk is over, otherwise another step is offered. */
    method WalkDone(left: nat, ghost job: Job, ghost p: nat, ghost q: nat, ghost m1: Bytes)
      returns (err: bool, ghost p': nat)
      requires Setup(job) && Placed() && Progress(job, m1, p, iv) && Loaded(job, m1, p, Now())
      requires left < nbytes && q == nbytes - left && (slow ==> left == 0) && inw.pageSize == pageSize == outw.pageSize
      requires Worked(job, m1, mem[..], p, q, dst, iv)
      modifies this, mem
      ensures p' == p + q
      ensures Placed() && inw.pageSize == pageSize == outw.pageSize
      ensures nbytes == 0 ==> Progress(job, mem[..], p', info) && |job.src| - p' < bs && (err <==> p' < |job.src|)
      ensures nbytes > 0 ==> !err && Progress(job, mem[..], p', iv) && Loaded(job, mem[..], p', Now())
    {
      hide Progress, Worked, Loaded, Moved, PageOk, Separate, DoneTo, Layout;
      PageFacts(job);
      LoadedFacts(job, m1, p, Now());
      p' := FinishStep(nbytes - left, job, p, m1);
      err := NextOrEnd(job, p');
    }

    method NextOrEnd(ghost job: Job, ghost p: nat) returns (err: bool)
      requires Setup(job) && Placed() && Behind(job, p) && nbytes == total && Progress(job, mem[..], p, iv)
      requires inw.pageSize == pageSize == outw.pageSize
      modifies this, mem
      ensures Placed() && inw.pageSize == pageSize == outw.pageSize
      ensures nbytes == 0 ==> Progress(job, mem[..], p, info) && |job.src| - p < bs && (err <==> p < |job.src|)
      ensures nbytes > 0 ==> !err && Progress(job, mem[..], p, iv) && Loaded(job, mem[..], p, Now())
    {
      hide Separate, DoneTo, Layout;
      if total > 0 {
        err := WalkNext(job, p);
      } else {
        err := false;
        ReturnIv(job, p);
      }
    }

    /** blkcipher_copy_iv: an IV that is not aligned is copied to the end of a buffer. */
    method CopyIv(ghost job: Job)
      requires Setup(job) && info % align != 0 && Progress(job, mem[..], 0, info)
      modifies this`buffer, this`iv, mem
      ensures Placed() && Progress(job, mem[..], 0, iv)
    {
      hide Separate, DoneTo;
      ghost var m1 := mem[..];
      buffer := Some(bufMem);
      var at := GetSpot(Align(bufMem, align), bs, pageSize) + bs;
      at := GetSpot(at, bs, pageSize) + bs;
      iv := GetSpot(at, bs, pageSize);
      IvOwned(job);
      Copy(mem, iv, info, bs);
      IvMoved(job, m1, mem[..], 0, info, iv);
    }

    /** blkcipher_walk_virt and blkcipher_walk_first. */
    method WalkFirst(ghost job: Job) returns (err: bool)
      requires Setup(job) && Progress(job, mem[..], 0, info) && total == |job.src|
      requires Listed(job.src, inw) && Listed(job.dst, outw) && inw.pageSize == pageSize == outw.pageSize
      modifies this, mem
      ensures nbytes == 0 ==> Progress(job, mem[..], 0, info) && |job.src| < bs && (err <==> 0 < |job.src|)
      ensures nbytes > 0 ==> !err && Placed() && inw.pageSize == pageSize == outw.pageSize
      ensures nbytes > 0 ==> Progress(job, mem[..], 0, iv) && Loaded(job, mem[..], 0, Now())
    {
      hide Separate, DoneTo, Layout;
      nbytes, err := total, false;
      if total == 0 { return; }
      PlaceIv(job);
      StartOf(job.src, inw);
      StartOf(job.dst, outw);
      inw, outw, page := StartAt(inw, 0), StartAt(outw, 0), false;
      assert job.src[0..] == job.src && job.dst[0..] == job.dst;
      err := WalkNext(job, 0);
    }

    method PlaceIv(ghost job: Job)
      requires Setup(job) && Progress(job, mem[..], 0, info)
      modifies this`buffer, this`iv, mem
      ensures Placed() && Progress(job, mem[..], 0, iv)
    {
      hide Separate, DoneTo, Layout;
      buffer, iv := None, info;
      if info % align != 0 { CopyIv(job); }
    }

    /** crypto_cbc_encrypt and crypto_cbc_decrypt: whatever steps the walk makes, the destination
        gets flat CBC of the source as far as it fills blocks, the caller's IV is the one to go
        on with, and no other memory is changed; an incomplete last block is an error. */
    method CbcCrypt(mode: Mode, fn: Bytes -> Bytes, ghost job: Job) returns (err: bool)
      requires Setup(job) && job.m0 == mem[..] && job.iv0 == mem[..][info..info + bs] && total == |job.src|
      requires Listed(job.src, inw) && Listed(job.dst, outw) && inw.pageSize == pageSize == outw.pageSize
      requires job.mode == mode && job.fn == fn
      modifies this, mem
      ensures Whole(|job.src|, bs) <= |job.src| && Carried(job, mem[..], Whole(|job.src|, bs), info)
      ensures err <==> |job.src| % bs != 0
    {
      hide Separate, DoneTo;
      StartProgress(job, info);
      err := WalkFirst(job);
      ghost var p := 0;
      while nbytes != 0
        invariant nbytes == 0 ==> Progress(job, mem[..], p, info) && |job.src| - p < bs && (err <==> p < |job.src|)
        invariant nbytes > 0 ==> Placed() && inw.pageSize == pageSize == outw.pageSize
        invariant nbytes > 0 ==> Progress(job, mem[..], p, iv) && Loaded(job, mem[..], p, Now())
        decreases |job.src| - p
      {
        err, p := CryptStep(mode, fn, job, p);
      }
      Ends(|job.src|, bs, p);
      WholeMessage(job, mem[..], p, info);
    }

    method CryptStep(mode: Mode, fn: Bytes -> Bytes, ghost job: Job, ghost p: nat) returns (err: bool, ghost p': nat)
      requires Setup(job) && Placed() && inw.pageSize == pageSize == outw.pageSize && job.mode == mode && job.fn == fn
      requires Progress(job, mem[..], p, iv) && Loaded(job, mem[..], p, Now())
      modifies this, mem
      ensures p < p'
      ensures nbytes == 0 ==> Progress(job, mem[..], p', info) && |job.src| - p' < bs && (err <==> p' < |job.src|)
      ensures nbytes > 0 ==> Placed() && inw.pageSize == pageSize == outw.pageSize
      ensures nbytes > 0 ==> Progress(job, mem[..], p', iv) && Loaded(job, mem[..], p', Now())
    {
      hide Separate, DoneTo, Layout;
      ghost var m1 := mem[..];
      var left;
      ghost var q;
      left, q := Work(mode, fn, job, p);
      err, p' := WalkDone(left, job, p, q, m1);
    }

    /** The mode's routine, on the step that is offered. */
    method Work(mode: Mode, fn: Bytes -> Bytes, ghost job: Job, ghost p: nat) returns (left: nat, ghost q: nat)
      requires Good(job) && job.bs == bs && |job.m0| == mem.Length && job.mode == mode && job.fn == fn
      requires Progress(job, mem[..], p, iv) && What(job, mem[..], p, Now())
      modifies mem
      ensures q == nbytes - left && left < nbytes && (nbytes == bs ==> left == 0)
      ensures Worked(job, old(mem[..]), mem[..], p, q, dst, iv)
    {
      hide Separate, DoneTo;
      ghost var m1, v := mem[..], Now();
      left, q := Crypt(mode, fn, bs, mem, dst, src, nbytes, iv);
      LeftSmall(nbytes, bs, left);
      StepWorked(job, m1, mem[..], p, v, q);
    }

    method GatherBlock(ghost addrs: seq<nat>)
      requires Ok(inw) && addrs <= Rest(inw) && |addrs| == bs
      requires src + bs <= mem.Length && InMem(addrs, mem.Length) && Clear(addrs, src, bs)
      modifies this`inw, this`nbytes, this`slow, mem
      ensures Along(old(inw), inw, bs) && nbytes == bs && slow
      ensures Copied(old(mem[..]), mem[..], src, addrs)
    {
      inw := CopyIn(mem, src, inw, bs, addrs);
      nbytes, slow := bs, true;
    }
  }

  /** Scratch memory for a block of destination, one of source, and the IV. */
  ghost predicate SpotsOk(job: Job, dst: nat, src: nat, iv: nat) {
    && dst + job.bs <= src && src + job.bs <= |job.m0|
    && Owned(job.own, dst, job.bs) && Owned(job.own, src, job.bs) && Owned(job.own, iv, job.bs)
    && Disjoint(dst, job.bs, iv, job.bs) && Disjoint(src, job.bs, iv, job.bs)
  }

  /** The bytes at these addresses have been copied to src. */
  predicate Copied(m: Bytes, m': Bytes, src: nat, addrs: seq<nat>) {
    && Only(m, m', src, |addrs|, src, |addrs|) && src + |addrs| <= |m|
    && InMem(addrs, |m|) && m'[src..src + |addrs|] == Gather(m, addrs)
  }

  lemma AfterSlow(job: Job, m1: Bytes, m2: Bytes, p: nat, addrs: seq<nat>, before: Walk, v: Offer)
    requires Good(job) && Progress(job, m1, p, v.iv) && SpotsOk(job, v.dst, v.src, v.iv)
    requires Ok(before) && job.src[p..] <= Rest(before)
    requires Where(job, p, v) && v.total >= job.bs == v.nbytes && v.slow && Along(before, v.inw, v.nbytes)
    requires addrs == job.src[p..p + job.bs] && Copied(m1, m2, v.src, addrs)
    ensures Progress(job, m2, p, v.iv) && Loaded(job, m2, p, v)
  {
    hide Separate, DoneTo;
    ScratchChange(job, m1, m2, p, v.iv, v.src, job.bs);
    SlowWhat(job, m1, m2, p, addrs, v);
    SlowHow(job, p, before, v);
  }

  lemma SlowWhat(job: Job, m1: Bytes, m2: Bytes, p: nat, addrs: seq<nat>, v: Offer)
    requires Good(job) && Progress(job, m1, p, v.iv) && SpotsOk(job, v.dst, v.src, v.iv)
    requires v.nbytes == job.bs && p + job.bs <= |job.src|
    requires addrs == job.src[p..p + job.bs] && Copied(m1, m2, v.src, addrs)
    ensures What(job, m2, p, v)
  {
    hide Separate, DoneTo;
    CopiedData(job, m1, m2, p, job.bs, v.src, v.iv, addrs);
  }

  lemma SlowHow(job: Job, p: nat, before: Walk, v: Offer)
    requires Ok(before) && Ok(v.inw) && Ok(v.outw) && p + v.nbytes <= |job.src| && v.nbytes == job.bs && v.slow
    requires job.src[p..] <= Rest(before) && Along(before, v.inw, v.nbytes)
    requires SpotsOk(job, v.dst, v.src, v.iv)
    ensures How(job, p, v)
  {
    assert job.src[p + v.nbytes..] == job.src[p..][v.nbytes..];
  }

  /** The next block of the source is ahead of the walk and away from the scratch memory. */
  lemma SlowAddrs(job: Job, m: Bytes, w: Walk, p: nat, addrs: seq<nat>, dst: nat, src: nat, iv: nat)
    requires Good(job) && Progress(job, m, p, iv) && Ok(w) && p + job.bs <= |job.src| && job.src[p..] <= Rest(w)
    requires SpotsOk(job, dst, src, iv) && addrs == job.src[p..p + job.bs]
    ensures addrs <= Rest(w) && InMem(addrs, |m|) && Clear(addrs, src, job.bs)
  {
    hide DoneTo;
    NotOwnPart(job.own, job.src, p, p + job.bs);
    ClearOwn(job.own, addrs, src, job.bs);
    assert addrs == job.src[p..][..job.bs];
  }

  /** The mode has done its work on q bytes. */
  ghost predicate Worked(job: Job, m: Bytes, m': Bytes, p: nat, q: nat, dst: nat, iv: nat)
    requires Good(job)
  {
    && |m| == |job.m0| && p + q <= |job.src| && Multiple(p, job.bs) && Multiple(q, job.bs)
    && dst + q <= |m| && iv + job.bs <= |m|
    && Did(m, m', dst, q, iv, job.bs, Piece(job, p, q), PieceIv(job, p, q))
  }

  lemma LoadedFacts(job: Job, m: Bytes, p: nat, v: Offer)
    requires Good(job) && Loaded(job, m, p, v)
    ensures (v.slow ==> v.nbytes == job.bs) && v.nbytes <= v.total == |job.src| - p
  {
  }

  lemma SlowTarget(job: Job, p: nat, v: Offer, addrs: seq<nat>)
    requires Good(job) && Where(job, p, v) && v.total >= job.bs && addrs == job.dst[p..p + job.bs]
    requires Owned(job.own, v.dst, job.bs)
    ensures addrs <= Rest(v.outw) && InMem(addrs, |job.m0|) && Clear(addrs, v.dst, job.bs) && Distinct(addrs)
  {
    hide Distinct;
    NotOwnPart(job.own, job.dst, p, p + job.bs);
    ClearOwn(job.own, addrs, v.dst, job.bs);
    assert addrs == job.dst[p..][..job.bs];
    DistinctSlice(job.dst, p, p + job.bs);
  }

  /** These are the first addresses of the list, which has them if there are any. */
  ghost predicate Listed(addrs: seq<nat>, w: Walk) {
    && (forall j :: 0 <= j < |w.sgs| ==> w.sgs[j].length > 0)
    && w.pageSize > 0 && addrs <= From(w.sgs, 0, w.pageSize)
  }

  lemma StartOf(addrs: seq<nat>, w: Walk)
    requires Listed(addrs, w) && addrs != []
    ensures |w.sgs| > 0 && Ok(StartAt(w, 0)) && addrs <= Rest(StartAt(w, 0))
  {
  }

  lemma StartProgress(job: Job, iv: nat)
    requires Good(job) && iv + job.bs <= |job.m0| && job.iv0 == job.m0[iv..iv + job.bs]
    ensures Progress(job, job.m0, 0, iv)
  {
    hide Separate;
    assert job.dst[..0] == [] && job.src[0..] == job.src && Data(job)[..0] == [] && Data(job)[0..] == Data(job);
    assert DoneTo(job, job.m0, 0, iv);
  }

  lemma Ends(n: nat, bs: nat, p: nat)
    requires bs > 0 && Multiple(p, bs) && p <= n < p + bs
    ensures p == Whole(n, bs) && (p < n <==> n % bs != 0)
  {
    WholeUnique(n, bs, p);
    WholeIs(n, bs);
  }

  /** What the routine was given is what the job says comes next. */
  lemma GivenPiece(job: Job, m: Bytes, p: nat, v: Offer, q: nat)
    requires Good(job) && What(job, m, p, v) && q <= v.nbytes
    ensures m[v.src..v.src + q] == Data(job)[p..p + q]
  {
    hide Separate;
    SubSlice(m, v.src, v.nbytes, 0, q);
    assert Data(job)[p..p + v.nbytes][0..q] == Data(job)[p..p + q];
  }

  lemma LeftSmall(n: nat, bs: nat, left: nat)
    requires 0 < bs <= n && left == n - Whole(n, bs)
    ensures left < n && (n == bs ==> left == 0) && n - left == Whole(n, bs)
  {
  }

  lemma PieceOf(job: Job, p: nat, q: nat, iv: Bytes, data: Bytes)
    requires Good(job) && p + q <= |job.src| && Multiple(p, job.bs) && Multiple(q, job.bs)
    requires iv == IvTo(job, p) && data == Data(job)[p..p + q]
    ensures Out(job.mode, job.fn, job.bs, iv, data) == Piece(job, p, q)
    ensures NextIv(job.mode, job.fn, job.bs, iv, data) == PieceIv(job, p, q)
  {
  }

  /** The mode's routine has done the work of a step. */
  lemma StepWorked(job: Job, m: Bytes, m': Bytes, p: nat, v: Offer, q: nat)
    requires Good(job) && Progress(job, m, p, v.iv) && What(job, m, p, v) && q <= v.nbytes && Multiple(q, job.bs)
    requires DidMode(job.mode, job.fn, job.bs, m, m', v.dst, v.src, q, v.iv)
    ensures Worked(job, m, m', p, q, v.dst, v.iv)
  {
    hide Separate, Did, Only, Out, NextIv;
    GivenPiece(job, m, p, v, q);
    PieceOf(job, p, q, m[v.iv..v.iv + job.bs], m[v.src..v.src + q]);
  }

  /** Both walks have p bytes behind them. */
  ghost predicate Moved(job: Job, p: nat, inw: Walk, outw: Walk) {
    p <= |job.src| == |job.dst| && Ok(inw) && Ok(outw) && job.src[p..] <= Rest(inw) && job.dst[p..] <= Rest(outw)
  }

  lemma MovedOn(job: Job, p: nat, q: nat, v: Offer, inw: Walk, outw: Walk)
    requires Where(job, p, v) && p + v.nbytes <= |job.src| && How(job, p, v) && q <= v.nbytes &&
             (v.slow ==> q == v.nbytes)
    requires Along(v.outw, outw, q) && if v.slow then inw == v.inw else Along(v.inw, inw, q)
    ensures Moved(job, p + q, inw, outw)
  {
    assert job.dst[p + q..] == job.dst[p..][q..] && job.src[p + q..] == job.src[p..][q..];
  }

  lemma StillAhead(job: Job, p: nat, total: nat, inw: Walk, outw: Walk)
    requires Moved(job, p, inw, outw) && total == |job.src| - p
    ensures Moved(job, p, Done(inw, total > 0), Done(outw, total > 0))
    ensures Done(inw, total > 0).pageSize == inw.pageSize && Done(outw, total > 0).pageSize == outw.pageSize
  {
    assert total > 0 ==> job.src[p..] != [] && job.dst[p..] != [];
    RestDone(inw, total > 0);
    RestDone(outw, total > 0);
  }

  ghost predicate PageOk(job: Job, pageMem: nat, pageSize: nat, iv: nat) {
    && pageMem + pageSize <= |job.m0| && Owned(job.own, pageMem, pageSize)
    && Owned(job.own, iv, job.bs) && iv + job.bs <= |job.m0| && Disjoint(pageMem, pageSize, iv, job.bs)
  }

  /** n bytes, at least a block, are on one page of both walks. */
  predicate Fits(bs: nat, n: nat, total: nat, inw: Walk, outw: Walk, pageSize: nat) {
    bs <= n <= total && n <= pageSize && Ok(inw) && Ok(outw) && n <= PageLen(inw) && n <= PageLen(outw)
  }

  /** The next n addresses are a stretch of memory. */
  lemma Stretch(addrs: seq<nat>, len: nat, w: Walk, p: nat, n: nat)
    requires Ok(w) && p + n <= |addrs| && addrs[p..] <= Rest(w) && n <= PageLen(w) && InMem(addrs, len) && n > 0
    ensures addrs[p..p + n] == Run(Addr(w), n) && Addr(w) + n <= len
    ensures Ok(Advance(w, n)) && addrs[p + n..] <= Rest(Advance(w, n))
  {
    RestAdvance(w, n);
    assert addrs[p..p + n] == addrs[p..][..n] && addrs[p + n..] == addrs[p..][n..];
    assert addrs[p..p + n] == Rest(w)[..n];
    RunInMem(Addr(w), n, len);
  }

  lemma AfterCopy(job: Job, m1: Bytes, m2: Bytes, p: nat, addrs: seq<nat>, v: Offer, pageSize: nat)
    requires Good(job) && Progress(job, m1, p, v.iv) && PageOk(job, v.pageMem, pageSize, v.iv)
    requires Where(job, p, v) && Fits(job.bs, v.nbytes, v.total, v.inw, v.outw, pageSize) && job.src[p..] <= Rest(v.inw)
    requires !v.slow && v.copy && v.src == v.dst == v.pageMem
    requires addrs == job.src[p..p + v.nbytes] && Copied(m1, m2, v.src, addrs)
    ensures Progress(job, m2, p, v.iv) && Loaded(job, m2, p, v)
  {
    hide Separate, DoneTo;
    OwnedPart(job.own, v.pageMem, pageSize, v.src, v.nbytes);
    ScratchChange(job, m1, m2, p, v.iv, v.src, v.nbytes);
    CopyWhat(job, m1, m2, p, addrs, v, pageSize);
  }

  lemma CopyWhat(job: Job, m1: Bytes, m2: Bytes, p: nat, addrs: seq<nat>, v: Offer, pageSize: nat)
    requires Good(job) && Progress(job, m1, p, v.iv) && PageOk(job, v.pageMem, pageSize, v.iv)
    requires p + v.nbytes <= |job.src| && job.bs <= v.nbytes <= pageSize && v.src == v.dst == v.pageMem
    requires addrs == job.src[p..p + v.nbytes] && Copied(m1, m2, v.src, addrs)
    ensures What(job, m2, p, v)
  {
    hide Separate, DoneTo;
    CopiedData(job, m1, m2, p, v.nbytes, v.src, v.iv, addrs);
  }

  lemma CopiedData(job: Job, m1: Bytes, m2: Bytes, p: nat, n: nat, src: nat, iv: nat, addrs: seq<nat>)
    requires Good(job) && Progress(job, m1, p, iv) && p + n <= |job.src| && addrs == job.src[p..p + n] &&
             Copied(m1, m2, src, addrs)
    ensures m2[src..src + n] == Data(job)[p..p + n]
  {
    hide Separate;
    GatherLess(m1, job.src, p, n, Data(job));
  }

  lemma FastData(job: Job, m: Bytes, p: nat, n: nat, a: nat, iv: nat)
    requires Good(job) && Progress(job, m, p, iv) && p + n <= |job.src| && job.src[p..p + n] == Run(a, n) &&
             a + n <= |m|
    ensures m[a..a + n] == Data(job)[p..p + n]
  {
    hide Separate;
    GatherLess(m, job.src, p, n, Data(job));
    GatherRun(m, a, n);
  }

  lemma FastRanges(job: Job, p: nat, n: nat, src: nat, dst: nat, iv: nat)
    requires Good(job) && p + n <= |job.src| && 0 < job.bs <= n && Owned(job.own, iv, job.bs) && iv + job.bs <= |job.m0|
    requires job.src[p..p + n] == Run(src, n) && job.dst[p..p + n] == Run(dst, n)
    requires src + n <= |job.m0| && dst + n <= |job.m0|
    ensures Ranges(|job.m0|, dst, src, n, iv, job.bs)
  {
    AwayFromOwn(job.own, job.src, p, n, src, iv, job.bs);
    AwayFromOwn(job.own, job.dst, p, n, dst, iv, job.bs);
    SameOrApart(job, p, n, src, dst);
  }

  lemma FastWhat(job: Job, m: Bytes, p: nat, v: Offer)
    requires Good(job) && Progress(job, m, p, v.iv) && Owned(job.own, v.iv, job.bs)
    requires Where(job, p, v) && job.src[p..] <= Rest(v.inw) && 0 < job.bs <= v.nbytes <= v.total
    requires v.nbytes <= PageLen(v.inw) && v.nbytes <= PageLen(v.outw) && v.src == Addr(v.inw) && v.dst == Addr(v.outw)
    ensures What(job, m, p, v)
  {
    hide Separate, DoneTo;
    Stretch(job.src, |m|, v.inw, p, v.nbytes);
    Stretch(job.dst, |m|, v.outw, p, v.nbytes);
    FastData(job, m, p, v.nbytes, v.src, v.iv);
    FastRanges(job, p, v.nbytes, v.src, v.dst, v.iv);
  }

  lemma AwayFromOwn(own: nat -> bool, addrs: seq<nat>, p: nat, n: nat, a: nat, iv: nat, bs: nat)
    requires NotOwn(own, addrs) && Owned(own, iv, bs) && p + n <= |addrs| && addrs[p..p + n] == Run(a, n) && n > 0 &&
             bs > 0
    ensures Disjoint(a, n, iv, bs)
  {
    NotOwnPart(own, addrs, p, p + n);
    ClearOwn(own, addrs[p..p + n], iv, bs);
    RunClear(a, n, iv, bs);
  }

  /** The two stretches are one and the same, or have nothing in common. */
  lemma SameOrApart(job: Job, p: nat, n: nat, src: nat, dst: nat)
    requires Good(job) && p + n <= |job.src| && n > 0
    requires job.src[p..p + n] == Run(src, n) && job.dst[p..p + n] == Run(dst, n)
    ensures src == dst || Disjoint(src, n, dst, n)
  {
    assert Run(src, n)[0] == src && Run(dst, n)[0] == dst;
    if job.src != job.dst {
      forall i | 0 <= i < n ensures !(dst <= Run(src, n)[i] < dst + n) {
        NotAmong(job, p, n, i, dst, Run(src, n)[i]);
      }
      RunClear(src, n, dst, n);
    }
  }

  lemma NotAmong(job: Job, p: nat, n: nat, i: nat, dst: nat, x: nat)
    requires Apart(job.src, job.dst) && p + n <= |job.src| == |job.dst| && i < n
    requires job.dst[p..p + n] == Run(dst, n) && x == job.src[p + i]
    ensures !(dst <= x < dst + n)
  {
    forall j | 0 <= j < n ensures Run(dst, n)[j] != x {
      assert job.src[p + i] !in job.dst && job.dst[p..p + n][j] == job.dst[p + j];
    }
    OutsideRun(dst, n, x);
  }

  /** The spots in a buffer: inside it and apart. */
  lemma BufSpots(addr: nat, align: nat, ctx: nat, bs: nat, pageSize: nat)
    requires Sizes(align, ctx, bs, pageSize) && pageSize % ctx == 0 && addr % ctx == 0
    ensures var r := Place(addr, align, bs, bs, pageSize);
            && addr <= r.dst && r.dst + bs <= r.src && r.src + bs <= r.iv
            && r.src + bs <= addr + SlowSize(align, ctx, bs)
            && r.iv + bs <= addr + IvSize(align, ctx, bs, bs)
  {
    SpotsApart(addr, align, bs, bs, pageSize);
    SlowFits(addr, align, ctx, bs, pageSize);
    IvFitsWhen(addr, align, ctx, bs, bs, pageSize);
  }

  /** When the buffer is a page, the spots are its first two blocks. */
  lemma PageSpots(addr: nat, align: nat, ctx: nat, bs: nat, pageSize: nat)
    requires Sizes(align, ctx, bs, pageSize) && addr % pageSize == 0
    ensures Place(addr, align, bs, bs, pageSize).dst == addr
    ensures Place(addr, align, bs, bs, pageSize).src == addr + bs
  {
    DivMod(addr, pageSize);
    MultipleTimes(addr / pageSize, pageSize, align);
    AlignUnique(addr, align, addr);
    SpotStays(addr, bs, pageSize, addr);
    SpotStays(addr + bs, bs, pageSize, addr);
  }

  lemma OwnedPart(own: nat -> bool, a: nat, n: nat, b: nat, k: nat)
    requires Owned(own, a, n) && a <= b && b + k <= a + n
    ensures Owned(own, b, k)
  {
  }
}
