/**
 Segment counting and scatter-gather mapping.  The block layer counts a request's
 physical segments bio by bio, and later maps the request greedily over all its
 vectors.  The count made first is the room the mapping may use.
 */
module Segments {
  import opened Vectors

  /** The limits of a queue.  Whether two adjacent vectors may share a segment depends on
      macros an architecture may override, so they are arbitrary here. */
  datatype Limits = Limits(
    cluster: bool,
    maxSegmentSize: nat,
    physMergeable: (Vec, Vec) -> bool,
    segBoundary: (Vec, Vec) -> bool,
    virtMergeable: (Vec, Vec) -> bool,
    virtOversize: nat -> bool,
    virtStartSize: Vec -> nat,
    high: Vec -> bool)

  /** The vectors of a bio that are still to be transferred. */
  type Bio = seq<Vec>

  function Flatten(bios: seq<Bio>): seq<Vec> {
    if bios == [] then [] else bios[0] + Flatten(bios[1..])
  }

  /** Every bio of a request has something left to transfer. */
  predicate NonEmpty(bios: seq<Bio>) {
    forall i :: 0 <= i < |bios| ==> bios[i] != []
  }

  predicate Join(q: Limits, a: Vec, b: Vec) {
    q.cluster && q.physMergeable(a, b) && q.segBoundary(a, b)
  }

  // ---- counting the segments of one bio ----

  /** What the counting loop carries from one vector to the next. */
  datatype Count = Count(prev: Vec, segSize: nat, hwSegSize: nat, highPrev: bool)

  /** Does the loop let `v` extend the current segment? */
  predicate Extends(q: Limits, c: Count, v: Vec) {
    && !q.high(v) && !c.highPrev && q.cluster
    && c.segSize + v.len <= q.maxSegmentSize
    && q.physMergeable(c.prev, v) && q.segBoundary(c.prev, v)
    && !q.virtOversize(c.hwSegSize + v.len)
  }

  /** The hardware segment goes on when the physical one does, and may go on otherwise. */
  predicate ExtendsHw(q: Limits, c: Count, v: Vec) {
    || Extends(q, c, v)
    || (&& !q.high(v) && !c.highPrev
        && (q.cluster ==> c.segSize + v.len > q.maxSegmentSize
                          || !q.physMergeable(c.prev, v) || !q.segBoundary(c.prev, v))
        && q.virtMergeable(c.prev, v) && !q.virtOversize(c.hwSegSize + v.len))
  }

  function Advance(q: Limits, c: Count, v: Vec): Count {
    Count(v,
          if Extends(q, c, v) then c.segSize + v.len else v.len,
          if ExtendsHw(q, c, v) then c.hwSegSize + v.len else q.virtStartSize(v) + v.len,
          if Extends(q, c, v) then c.highPrev else q.high(v))
  }

  function CountAfter(q: Limits, v: Vec): Count {
    Count(v, v.len, q.virtStartSize(v) + v.len, q.high(v))
  }

  /** Segments opened by the vectors `vecs` in state `c`. */
  function Opened(q: Limits, c: Count, vecs: seq<Vec>): nat
    decreases |vecs|
  {
    if vecs == [] then 0
    else (if Extends(q, c, vecs[0]) then 0 else 1) + Opened(q, Advance(q, c, vecs[0]), vecs[1..])
  }

  function BioSegments(q: Limits, bio: Bio): nat {
    if bio == [] then 0 else 1 + Opened(q, CountAfter(q, bio[0]), bio[1..])
  }

  /** Hardware segments opened by the vectors `vecs` in state `c`. */
  function HwOpened(q: Limits, c: Count, vecs: seq<Vec>): nat
    decreases |vecs|
  {
    if vecs == [] then 0
    else (if ExtendsHw(q, c, vecs[0]) then 0 else 1) + HwOpened(q, Advance(q, c, vecs[0]), vecs[1..])
  }

  function BioHwSegments(q: Limits, bio: Bio): nat {
    if bio == [] then 0 else 1 + HwOpened(q, CountAfter(q, bio[0]), bio[1..])
  }

  lemma {:induction false} HwOpenedWithin(q: Limits, c: Count, vecs: seq<Vec>)
    ensures HwOpened(q, c, vecs) <= Opened(q, c, vecs)
    decreases |vecs|
  {
    if vecs != [] { HwOpenedWithin(q, Advance(q, c, vecs[0]), vecs[1..]); }
  }

  /** blk_recount_segments: there are no more hardware segments than physical ones. */
  method RecountSegments(q: Limits, bio: Bio) returns (nrPhysSegs: nat, nrHwSegs: nat)
    ensures nrPhysSegs == BioSegments(q, bio) && nrHwSegs == BioHwSegments(q, bio) && nrHwSegs <= nrPhysSegs
  {
    if bio != [] { HwOpenedWithin(q, CountAfter(q, bio[0]), bio[1..]); }
    var i := 0;
    nrPhysSegs, nrHwSegs := 0, 0;
    var segSize: nat, hwSegSize: nat, highPrev, prev := 0, 0, true, Vec(0, 0, 0);
    while i < |bio|
      invariant 0 <= i <= |bio|
      invariant i == 0 ==> highPrev && nrPhysSegs == 0 && nrHwSegs == 0
      invariant i > 0 ==>
                BioSegments(q, bio) == nrPhysSegs + Opened(q, Count(prev, segSize, hwSegSize, highPrev), bio[i..])
      invariant i > 0 ==>
                BioHwSegments(q, bio) == nrHwSegs + HwOpened(q, Count(prev, segSize, hwSegSize, highPrev), bio[i..])
    {
      var v := bio[i];
      var high := q.high(v);
      ghost var c := Count(prev, segSize, hwSegSize, highPrev);
      assert bio[i..][0] == v && bio[i..][1..] == bio[i + 1..];
      var newHw := high || highPrev;
      var newSegment := newHw;
      if !newHw {
        if q.cluster && segSize + v.len <= q.maxSegmentSize && q.physMergeable(prev, v) && q.segBoundary(prev, v) {
          newHw := q.virtOversize(hwSegSize + v.len);
          newSegment := newHw;
        } else {
          newSegment := true;
          newHw := !(q.virtMergeable(prev, v) && !q.virtOversize(hwSegSize + v.len));
        }
      }
      if newHw {
        hwSegSize := q.virtStartSize(v) + v.len;
        nrHwSegs := nrHwSegs + 1;
      } else {
        hwSegSize := hwSegSize + v.len;
      }
      if newSegment {
        nrPhysSegs := nrPhysSegs + 1;
        segSize := v.len;
        highPrev := high;
      } else {
        segSize := segSize + v.len;
      }
      prev := v;
      i := i + 1;
      assert i == 1 ==> Count(prev, segSize, hwSegSize, highPrev) == CountAfter(q, v);
      assert i > 1 ==> Count(prev, segSize, hwSegSize, highPrev) == Advance(q, c, v);
    }
  }

  // ---- counting the segments of a request ----

  function Last(bio: Bio): Vec
    requires bio != []
  {
    bio[|bio| - 1]
  }

  /** blk_phys_contig_segment */
  predicate PhysContig(q: Limits, bio: Bio, nxt: Bio)
    requires bio != [] && nxt != []
  {
    q.cluster && q.physMergeable(Last(bio), nxt[0]) && Size(bio) + Size(nxt) <= q.maxSegmentSize &&
      q.segBoundary(Last(bio), nxt[0])
  }

  /** Segments of the bios after `prev`, where `physSize` is what the chain of merged bios
      has accumulated. */
  function RestSegments(q: Limits, prev: Bio, physSize: nat, bios: seq<Bio>): int
    requires prev != [] && NonEmpty(bios)
    decreases |bios|
  {
    if bios == [] then 0
    else
      var pseg := physSize + Size(prev) + Size(bios[0]);
      if PhysContig(q, prev, bios[0]) && pseg <= q.maxSegmentSize
      then BioSegments(q, bios[0]) - 1 + RestSegments(q, bios[0], pseg, bios[1..])
      else BioSegments(q, bios[0]) + RestSegments(q, bios[0], 0, bios[1..])
  }

  function RequestSegments(q: Limits, bios: seq<Bio>): int
    requires NonEmpty(bios)
  {
    if bios == [] then 0 else BioSegments(q, bios[0]) + RestSegments(q, bios[0], 0, bios[1..])
  }

  /** blk_recalc_rq_segments */
  method RecalcRqSegments(q: Limits, bios: seq<Bio>) returns (nrPhysSegs: int)
    requires NonEmpty(bios)
    ensures nrPhysSegs == RequestSegments(q, bios)
  {
    nrPhysSegs := 0;
    var physSize: nat, i := 0, 0;
    while i < |bios|
      invariant 0 <= i <= |bios|
      invariant i == 0 ==> nrPhysSegs == 0 && physSize == 0
      invariant i > 0 ==> RequestSegments(q, bios) == nrPhysSegs + RestSegments(q, bios[i - 1], physSize, bios[i..])
    {
      var n, _ := RecountSegments(q, bios[i]);
      nrPhysSegs := nrPhysSegs + n;
      assert bios[i..][0] == bios[i] && bios[i..][1..] == bios[i + 1..];
      if i > 0 {
        var pseg := physSize + Size(bios[i - 1]) + Size(bios[i]);
        if PhysContig(q, bios[i - 1], bios[i]) && pseg <= q.maxSegmentSize {
          nrPhysSegs := nrPhysSegs - 1;
          physSize := pseg;
        } else {
          physSize := 0;
        }
      }
      i := i + 1;
    }
  }

  // ---- mapping a request ----

  datatype SgEntry = SgEntry(page: nat, offset: nat, length: nat)

  function NewEntry(v: Vec): SgEntry {
    SgEntry(v.page, v.offset, v.len)
  }

  predicate Fits(q: Limits, entry: SgEntry, prev: Vec, v: Vec) {
    Join(q, prev, v) && entry.length + v.len <= q.maxSegmentSize
  }

  /** The scatter-gather entries for `vecs`, given the entry being built. */
  function MapFrom(q: Limits, entry: SgEntry, prev: Vec, vecs: seq<Vec>): (sg: seq<SgEntry>)
    ensures |sg| > 0
    decreases |vecs|
  {
    if vecs == [] then [entry]
    else if Fits(q, entry, prev, vecs[0]) then MapFrom(q, entry.(length := entry.length + vecs[0].len), vecs[0],
                                                       vecs[1..])
    else [entry] + MapFrom(q, NewEntry(vecs[0]), vecs[0], vecs[1..])
  }

  function MapVecs(q: Limits, vecs: seq<Vec>): seq<SgEntry> {
    if vecs == [] then [] else MapFrom(q, NewEntry(vecs[0]), vecs[0], vecs[1..])
  }

  // ---- greedy mapping is optimal ----

  /** Entries the greedy mapping opens for `vecs` after an entry of `size` bytes ending in `prev`. */
  function Breaks(q: Limits, prev: Vec, size: nat, vecs: seq<Vec>): nat
    decreases |vecs|
  {
    if vecs == [] then 0
    else if Join(q, prev, vecs[0]) && size + vecs[0].len <= q.maxSegmentSize
    then Breaks(q, vecs[0], size + vecs[0].len, vecs[1..])
    else 1 + Breaks(q, vecs[0], vecs[0].len, vecs[1..])
  }

  lemma {:induction false} MapLength(q: Limits, entry: SgEntry, prev: Vec, vecs: seq<Vec>)
    ensures |MapFrom(q, entry, prev, vecs)| == 1 + Breaks(q, prev, entry.length, vecs)
    decreases |vecs|
  {
    if vecs != [] {
      if Fits(q, entry, prev,
              vecs[0]) { MapLength(q, entry.(length := entry.length + vecs[0].len), vecs[0], vecs[1..]); }
      else { MapLength(q, NewEntry(vecs[0]), vecs[0], vecs[1..]); }
    }
  }

  /** A fuller entry is never better, and costs at most one more. */
  lemma {:induction false} FullerIsWorse(q: Limits, prev: Vec, small: nat, large: nat, vecs: seq<Vec>)
    requires small <= large
    ensures Breaks(q, prev, small, vecs) <= Breaks(q, prev, large, vecs) <= Breaks(q, prev, small, vecs) + 1
    decreases |vecs|
  {
    if vecs != [] {
      var v, rest := vecs[0], vecs[1..];
      FullerIsWorse(q, v, v.len, small + v.len, rest);
      FullerIsWorse(q, v, small + v.len, large + v.len, rest);
    }
  }

  /** Opening an entry for the first vector is at most one entry more. */
  lemma BreakAnyway(q: Limits, prev: Vec, size: nat, vecs: seq<Vec>)
    requires vecs != []
    ensures Breaks(q, prev, size, vecs) <= 1 + Breaks(q, vecs[0], vecs[0].len, vecs[1..])
  {
    FullerIsWorse(q, vecs[0], vecs[0].len, size + vecs[0].len, vecs[1..]);
  }

  lemma BreaksStep(q: Limits, prev: Vec, size: nat, vecs: seq<Vec>)
    requires vecs != [] && Join(q, prev, vecs[0]) && size + vecs[0].len <= q.maxSegmentSize
    ensures Breaks(q, prev, size, vecs) == Breaks(q, vecs[0], size + vecs[0].len, vecs[1..])
  {
  }

  lemma OpenedStep(q: Limits, c: Count, vecs: seq<Vec>)
    requires vecs != []
    ensures Opened(q, c, vecs) ==
            (if Extends(q, c, vecs[0]) then 0 else 1) + Opened(q, Advance(q, c, vecs[0]), vecs[1..])
  {
  }

  /** Within one bio the mapping opens no more entries than the count did, whatever the
      entry it came in with, as long as that entry has room for all of the bio. */
  lemma {:induction false} WithinBio(q: Limits, c: Count, size: nat, vecs: seq<Vec>, rest: seq<Vec>)
    requires size == c.segSize || size + Size(vecs) <= q.maxSegmentSize
    ensures Breaks(q, c.prev, size, vecs + rest)
         <= Opened(q, c, vecs) + Breaks(q, if vecs == [] then c.prev else Last(vecs), size + Size(vecs), rest)
    decreases |vecs|
  {
    if vecs == [] {
      assert vecs + rest == rest;
    } else {
      hide Breaks, Opened, ExtendsHw;
      var v, tail := vecs[0], vecs[1..];
      assert (vecs + rest)[0] == v && (vecs + rest)[1..] == tail + rest;
      var end := if tail == [] then v else Last(tail);
      assert Last(vecs) == end;
      OpenedStep(q, c, vecs);
      if Extends(q, c, v) {
        BreaksStep(q, c.prev, size, vecs + rest);
        WithinBio(q, Advance(q, c, v), size + v.len, tail, rest);
      } else {
        WithinBio(q, Advance(q, c, v), v.len, tail, rest);
        BreakAnyway(q, c.prev, size, vecs + rest);
        FullerIsWorse(q, end, v.len + Size(tail), size + Size(vecs), rest);
      }
    }
  }

  /** A whole bio after an entry of `size` bytes: it adds at most its own segments, and one
      less if its first vector joins that entry. */
  lemma WholeBio(q: Limits, prev: Vec, size: nat, bio: Bio, rest: seq<Vec>)
    requires bio != []
    ensures Breaks(q, prev, size, bio + rest) <= BioSegments(q, bio) + Breaks(q, Last(bio), Size(bio), rest)
    ensures Join(q, prev, bio[0]) && size + Size(bio) <= q.maxSegmentSize ==>
              Breaks(q, prev, size, bio + rest) <=
                BioSegments(q, bio) - 1 + Breaks(q, Last(bio), size + Size(bio), rest)
  {
    var v, tail := bio[0], bio[1..];
    assert (bio + rest)[0] == v && (bio + rest)[1..] == tail + rest;
    assert Last(bio) == if tail == [] then v else Last(tail);
    WithinBio(q, CountAfter(q, v), v.len, tail, rest);
    FullerIsWorse(q, v, v.len, size + v.len, tail + rest);
    if Join(q, prev, v) && size + Size(bio) <= q.maxSegmentSize {
      WithinBio(q, CountAfter(q, v), size + v.len, tail, rest);
    }
  }

  /** Across bios: `physSize` bounds what the chain of merged bios has put into the entry. */
  lemma {:induction false} AcrossBios(q: Limits, prev: Bio, physSize: nat, size: nat, bios: seq<Bio>)
    requires prev != [] && NonEmpty(bios) && size <= physSize + Size(prev)
    ensures Breaks(q, Last(prev), size, Flatten(bios)) <= RestSegments(q, prev, physSize, bios)
    decreases |bios|
  {
    if bios != [] {
      var bio, rest := bios[0], bios[1..];
      var pseg := physSize + Size(prev) + Size(bio);
      WholeBio(q, Last(prev), size, bio, Flatten(rest));
      if PhysContig(q, prev, bio) && pseg <= q.maxSegmentSize {
        AcrossBios(q, bio, pseg, size + Size(bio), rest);
      } else {
        AcrossBios(q, bio, 0, Size(bio), rest);
      }
    }
  }

  /** The mapping never needs more entries than the segments counted for the request. */
  lemma MapWithinCount(q: Limits, bios: seq<Bio>)
    requires NonEmpty(bios)
    ensures |MapVecs(q, Flatten(bios))| <= RequestSegments(q, bios)
  {
    if bios != [] {
      var bio, rest := bios[0], Flatten(bios[1..]);
      var v, tail := bio[0], bio[1..];
      assert (bio + rest)[0] == v && (bio + rest)[1..] == tail + rest;
      assert Last(bio) == if tail == [] then v else Last(tail);
      MapLength(q, NewEntry(v), v, tail + rest);
      WithinBio(q, CountAfter(q, v), v.len, tail, rest);
      AcrossBios(q, bio, 0, Size(bio), bios[1..]);
    }
  }

  // ---- what the entries cover ----

  const PAGE_SIZE: nat := 4096

  function Phys(page: nat, offset: nat): nat {
    page * PAGE_SIZE + offset
  }

  function Addresses(start: nat, len: nat): seq<nat> {
    seq(len, i => start + i)
  }

  function VecBytes(vecs: seq<Vec>): seq<nat> {
    if vecs == [] then [] else Addresses(Phys(vecs[0].page, vecs[0].offset), vecs[0].len) + VecBytes(vecs[1..])
  }

  function SgBytes(sg: seq<SgEntry>): seq<nat> {
    if sg == [] then [] else Addresses(Phys(sg[0].page, sg[0].offset), sg[0].length) + SgBytes(sg[1..])
  }

  /** Vectors are merged only when the second starts where the first one ends. */
  ghost predicate MergesAdjacent(q: Limits) {
    forall a, b :: q.physMergeable(a, b) ==> Phys(a.page, a.offset) + a.len == Phys(b.page, b.offset)
  }

  lemma {:induction false} MapFromBytes(q: Limits, entry: SgEntry, prev: Vec, vecs: seq<Vec>)
    requires MergesAdjacent(q)
    requires Phys(entry.page, entry.offset) + entry.length == Phys(prev.page, prev.offset) + prev.len
    ensures SgBytes(MapFrom(q, entry, prev, vecs)) ==
            Addresses(Phys(entry.page, entry.offset), entry.length) + VecBytes(vecs)
    decreases |vecs|
  {
    var start := Phys(entry.page, entry.offset);
    if vecs != [] {
      var v := vecs[0];
      if Fits(q, entry, prev, v) {
        MapFromBytes(q, entry.(length := entry.length + v.len), v, vecs[1..]);
        assert Addresses(start, entry.length + v.len) ==
               Addresses(start, entry.length) + Addresses(start + entry.length, v.len);
      } else {
        MapFromBytes(q, NewEntry(v), v, vecs[1..]);
      }
    } else {
      assert SgBytes([entry]) == Addresses(start, entry.length);
    }
  }

  /** The entries cover exactly the bytes of the request's vectors, in order. */
  lemma MapBytes(q: Limits, bios: seq<Bio>)
    requires MergesAdjacent(q)
    ensures SgBytes(MapVecs(q, Flatten(bios))) == VecBytes(Flatten(bios))
  {
    var vecs := Flatten(bios);
    if vecs != [] { MapFromBytes(q, NewEntry(vecs[0]), vecs[0], vecs[1..]); }
  }

  /** No entry is longer than the queue allows, except for one vector that is by itself. */
  lemma {:induction false} MapFromSizes(q: Limits, entry: SgEntry, prev: Vec, vecs: seq<Vec>)
    requires entry.length <= q.maxSegmentSize || entry == NewEntry(prev)
    ensures forall e :: e in MapFrom(q, entry, prev, vecs) ==>
              e.length <= q.maxSegmentSize || e == entry || exists v :: v in vecs && e == NewEntry(v)
    decreases |vecs|
  {
    if vecs != [] {
      var v := vecs[0];
      if Fits(q, entry, prev, v) { MapFromSizes(q, entry.(length := entry.length + v.len), v, vecs[1..]); }
      else { MapFromSizes(q, NewEntry(v), v, vecs[1..]); }
    }
  }

  /** What an entry may be: within the limit, or one vector by itself. */
  ghost predicate EntrySize(q: Limits, vecs: seq<Vec>, e: SgEntry) {
    e.length <= q.maxSegmentSize || exists v :: v in vecs && e == NewEntry(v)
  }

  lemma MapSizes(q: Limits, vecs: seq<Vec>)
    ensures forall e :: e in MapVecs(q, vecs) ==> EntrySize(q, vecs, e)
  {
    if vecs != [] {
      var v, rest := vecs[0], vecs[1..];
      MapFromSizes(q, NewEntry(v), v, rest);
      forall e | e in MapVecs(q, vecs) ensures EntrySize(q, vecs, e) {
        if e == NewEntry(v) { assert v in vecs; }
        else if e.length > q.maxSegmentSize {
          var w :| w in rest && e == NewEntry(w);
          assert w in vecs;
        }
      }
    }
  }

  lemma {:induction false} FlattenSplit(bios: seq<Bio>, i: nat)
    requires i < |bios|
    ensures Flatten(bios[i..]) == bios[i] + Flatten(bios[i + 1..])
  {
    assert bios[i..][1..] == bios[i + 1..];
  }

  /** One step of the mapping loop on the entries made so far. */
  function Place(q: Limits, done: seq<SgEntry>, prev: Vec, v: Vec): seq<SgEntry> {
    var n := |done|;
    if n > 0 && Fits(q, done[n - 1], prev, v) then done[n - 1 := done[n - 1].(length := done[n - 1].length + v.len)]
    else done + [NewEntry(v)]
  }

  /** `all` is what the entries made so far become when the vectors `left` are mapped too. */
  ghost predicate Building(q: Limits, done: seq<SgEntry>, prev: Vec, left: seq<Vec>, all: seq<SgEntry>) {
    if done == [] then all == MapVecs(q, left)
    else all == done[..|done| - 1] + MapFrom(q, done[|done| - 1], prev, left)
  }

  lemma PlaceBuilds(q: Limits, done: seq<SgEntry>, prev: Vec, left: seq<Vec>, all: seq<SgEntry>)
    requires left != [] && Building(q, done, prev, left, all)
    ensures var done' := Place(q, done, prev, left[0]); |done'| <= |all| && Building(q, done', left[0], left[1..], all)
  {
    var n, done' := |done|, Place(q, done, prev, left[0]);
    if n > 0 {
      if Fits(q, done[n - 1], prev, left[0]) { assert done'[..n - 1] == done[..n - 1]; }
      else { assert done'[..n] == done == done[..n - 1] + [done[n - 1]]; }
    }
  }

  /** The step for one vector, in the table. */
  method PlaceVec(q: Limits, sg: array<SgEntry>, nsegs: nat, prev: Vec, v: Vec) returns (n: nat)
    requires nsegs <= sg.Length && |Place(q, sg[..nsegs], prev, v)| <= sg.Length
    modifies sg
    ensures n <= sg.Length && sg[..n] == Place(q, old(sg[..nsegs]), prev, v)
  {
    ghost var done := sg[..nsegs];
    n := nsegs;
    if nsegs > 0 && Fits(q, sg[nsegs - 1], prev, v) {
      sg[nsegs - 1] := sg[nsegs - 1].(length := sg[nsegs - 1].length + v.len);
    } else {
      sg[nsegs] := NewEntry(v);
      n := nsegs + 1;
    }
    assert sg[..n] == Place(q, done, prev, v);
  }

  /** The inner loop, over the vectors of one bio. */
  method MapBio(q: Limits, sg: array<SgEntry>, nsegs: nat, prev: Vec, bio: Bio, ghost rest: seq<Vec>,
                ghost all: seq<SgEntry>)
    returns (n: nat, last: Vec)
    requires nsegs <= |all| <= sg.Length && Building(q, sg[..nsegs], prev, bio + rest, all)
    modifies sg
    ensures n <= |all| && Building(q, sg[..n], last, rest, all)
  {
    n, last := nsegs, prev;
    var j := 0;
    assert bio[0..] == bio;
    while j < |bio|
      invariant 0 <= j <= |bio| && n <= |all|
      invariant Building(q, sg[..n], last, bio[j..] + rest, all)
    {
      ghost var left := bio[j..] + rest;
      assert left[0] == bio[j] && left[1..] == bio[j + 1..] + rest;
      PlaceBuilds(q, sg[..n], last, left, all);
      n := PlaceVec(q, sg, n, last, bio[j]);
      last := bio[j];
      j := j + 1;
    }
    assert bio[j..] + rest == rest;
  }

  /** blk_rq_map_sg: a table with room for the segments counted is never overrun; the entries
      cover exactly the bytes of the request, in order, and none is longer than the limit
      unless it is one vector by itself. */
  method RqMapSg(q: Limits, bios: seq<Bio>, sg: array<SgEntry>) returns (nsegs: nat)
    requires NonEmpty(bios) && sg.Length >= RequestSegments(q, bios)
    modifies sg
    ensures nsegs <= RequestSegments(q, bios) <= sg.Length && sg[..nsegs] == MapVecs(q, Flatten(bios))
    ensures MergesAdjacent(q) ==> SgBytes(sg[..nsegs]) == VecBytes(Flatten(bios))
    ensures forall e :: e in sg[..nsegs] ==> EntrySize(q, Flatten(bios), e)
  {
    if MergesAdjacent(q) { MapBytes(q, bios); }
    MapSizes(q, Flatten(bios));
    MapWithinCount(q, bios);
    ghost var all := MapVecs(q, Flatten(bios));
    nsegs := 0;
    var prev, i := Vec(0, 0, 0), 0;
    assert bios[0..] == bios;
    while i < |bios|
      invariant 0 <= i <= |bios| && nsegs <= |all|
      invariant Building(q, sg[..nsegs], prev, Flatten(bios[i..]), all)
    {
      FlattenSplit(bios, i);
      nsegs, prev := MapBio(q, sg, nsegs, prev, bios[i], Flatten(bios[i + 1..]), all);
      i := i + 1;
    }
    assert nsegs > 0 ==> sg[..nsegs] == sg[..nsegs][..nsegs - 1] + [sg[nsegs - 1]];
  }
}
