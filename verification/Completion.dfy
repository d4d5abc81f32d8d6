/**
 Partial completion of a request: `__end_that_request_first` takes a number of bytes off
 the front of a request's bios, tells each bio what was transferred, and moves the
 request's sector range ahead.
 */
module Completion {
  import opened Vectors

  const SECTOR: nat := 512

  /** A bio with its vector table and the index of the first vector still to be done. */
  datatype Bio = Bio(id: nat, sector: nat, size: nat, vecs: seq<Vec>, idx: nat)

  /** What of a bio is still to be transferred. */
  datatype Pending = Pending(id: nat, sector: nat, size: nat, rest: seq<Vec>)

  /** One call of the bio's end function. */
  datatype Credit = Credit(id: nat, bytes: nat)

  function Total(bios: seq<Pending>): nat {
    if bios == [] then 0 else bios[0].size + Total(bios[1..])
  }

  predicate NoEmptyVec(vecs: seq<Vec>) {
    forall i :: 0 <= i < |vecs| ==> vecs[i].len > 0
  }

  /** A bio's size is the length of its vectors, none of them empty. */
  predicate WellFormed(p: Pending) {
    NoEmptyVec(p.rest) && p.size == Size(p.rest) && p.size > 0
  }

  predicate AllWellFormed(bios: seq<Pending>) {
    forall i :: 0 <= i < |bios| ==> WellFormed(bios[i])
  }

  predicate WholeSectors(bios: seq<Pending>) {
    forall i :: 0 <= i < |bios| ==> bios[i].size % SECTOR == 0
  }

  /** The same bytes are left, whatever the bios' sectors. */
  predicate SameBytes(a: seq<Pending>, b: seq<Pending>) {
    |a| == |b| && forall i :: 0 <= i < |a| ==> a[i].(sector := 0) == b[i].(sector := 0)
  }

  // ---- taking bytes off the front ----

  function DropVecs(vecs: seq<Vec>, n: nat): seq<Vec>
    decreases |vecs|
  {
    if vecs == [] || n == 0 then vecs
    else if vecs[0].len <= n then DropVecs(vecs[1..], n - vecs[0].len)
    else [Vec(vecs[0].page, vecs[0].offset + n, vecs[0].len - n)] + vecs[1..]
  }

  function DropHead(p: Pending, n: nat): Pending
    requires n <= p.size
  {
    Pending(p.id, p.sector + n / SECTOR, p.size - n, DropVecs(p.rest, n))
  }

  function DropBytes(bios: seq<Pending>, n: nat): seq<Pending>
    decreases |bios|
  {
    if bios == [] then []
    else if n >= bios[0].size then DropBytes(bios[1..], n - bios[0].size)
    else [DropHead(bios[0], n)] + bios[1..]
  }

  /** The calls made to the bios' end functions. */
  function Credits(bios: seq<Pending>, n: nat): seq<Credit>
    decreases |bios|
  {
    if bios == [] then []
    else if n >= bios[0].size then [Credit(bios[0].id, bios[0].size)] + Credits(bios[1..], n - bios[0].size)
    else if n == 0 then []
    else [Credit(bios[0].id, n)]
  }

  // ---- the request ----

  /** The request's state: the range to complete (`hard...`), the range to submit, and the
      sectors of the first vector. */
  datatype State = State(fs: bool, bios: seq<Pending>, hardSector: int, hardNr: int, sector: int, nr: int, cur: int)

  function CurSectors(bios: seq<Pending>): int {
    if bios == [] || bios[0].rest == [] then 0 else bios[0].rest[0].len / SECTOR
  }

  /** blk_recalc_rq_sectors */
  function RecalcSectors(st: State, nsect: int): State {
    if !st.fs then st
    else
      var hard := st.(hardSector := st.hardSector + nsect, hardNr := st.hardNr - nsect);
      var moved := if hard.nr >= hard.hardNr && hard.sector <= hard.hardSector
                   then hard.(sector := hard.hardSector, nr := hard.hardNr, cur := CurSectors(hard.bios)) else hard;
      if moved.nr < moved.cur then moved.(nr := moved.cur) else moved
  }

  function EndBytes(st: State, n: nat): State {
    var left := st.(bios := DropBytes(st.bios, n));
    if left.bios == [] then left else RecalcSectors(left, n / SECTOR)
  }

  /** The range to complete is what the bios hold, and the submission side is not botched. */
  predicate Consistent(st: State) {
    && AllWellFormed(st.bios) && WholeSectors(st.bios)
    && st.hardNr * SECTOR == Total(st.bios) && st.cur <= st.nr
  }

  /** Does rounding to sectors twice come to the same as rounding once? */
  predicate RoundsAlike(a: nat, b: nat) {
    a % SECTOR + b % SECTOR < SECTOR
  }

  /** The sector of the bio in which the amount ends is rounded twice only when both calls end
      in that bio. */
  predicate SectorsAddUp(bios: seq<Pending>, a: nat, b: nat)
    decreases |bios|
  {
    if bios == [] then true
    else if a >= bios[0].size then SectorsAddUp(bios[1..], a - bios[0].size, b)
    else a + b >= bios[0].size || RoundsAlike(a, b)
  }

  // ---- lemmas on vectors and bios ----

  lemma {:induction false} DropVecsTwice(vecs: seq<Vec>, a: nat, b: nat)
    requires NoEmptyVec(vecs)
    ensures DropVecs(DropVecs(vecs, a), b) == DropVecs(vecs, a + b)
    decreases |vecs|
  {
    if vecs != [] && a != 0 {
      if vecs[0].len <= a { DropVecsTwice(vecs[1..], a - vecs[0].len, b); }
    }
  }

  lemma {:induction false} DropVecsLength(vecs: seq<Vec>, n: nat)
    requires NoEmptyVec(vecs) && n <= Size(vecs)
    ensures NoEmptyVec(DropVecs(vecs, n)) && Size(DropVecs(vecs, n)) == Size(vecs) - n
    decreases |vecs|
  {
    if vecs != [] && n != 0 && vecs[0].len <= n { DropVecsLength(vecs[1..], n - vecs[0].len); }
  }

  /** Skipping whole vectors first. */
  lemma {:induction false} DropVecsSkip(vecs: seq<Vec>, k: nat, n: nat)
    requires NoEmptyVec(vecs) && k <= |vecs|
    ensures DropVecs(vecs, Size(vecs[..k]) + n) == DropVecs(vecs[k..], n)
    decreases k
  {
    if k > 0 {
      assert vecs[..k][1..] == vecs[1..][..k - 1] && vecs[k..] == vecs[1..][k - 1..];
      DropVecsSkip(vecs[1..], k - 1, n);
    }
  }

  lemma Rounding(a: nat, b: nat)
    ensures a / SECTOR + b / SECTOR == (a + b) / SECTOR <==> RoundsAlike(a, b)
    ensures a / SECTOR + b / SECTOR == (a + b) / SECTOR || a / SECTOR + b / SECTOR + 1 == (a + b) / SECTOR
  {
  }

  lemma DropHeadTwice(p: Pending, a: nat, b: nat)
    requires WellFormed(p) && a + b <= p.size
    ensures DropHead(DropHead(p, a), b).(sector := 0) == DropHead(p, a + b).(sector := 0)
    ensures DropHead(DropHead(p, a), b) == DropHead(p, a + b) <==> RoundsAlike(a, b)
    ensures a < p.size ==> WellFormed(DropHead(p, a))
  {
    hide RoundsAlike;
    DropVecsTwice(p.rest, a, b);
    DropVecsLength(p.rest, a);
    Rounding(a, b);
  }

  /** The bytes left do not depend on how the amount was split; the bios' sectors do not
      exactly when rounding adds up. */
  lemma {:induction false} DropBytesTwice(bios: seq<Pending>, a: nat, b: nat)
    requires AllWellFormed(bios)
    ensures SameBytes(DropBytes(DropBytes(bios, a), b), DropBytes(bios, a + b))
    ensures DropBytes(DropBytes(bios, a), b) == DropBytes(bios, a + b) <==> SectorsAddUp(bios, a, b)
    decreases |bios|
  {
    hide WellFormed, RoundsAlike;
    if bios != [] {
      var p := bios[0];
      assert WellFormed(p);
      if a >= p.size {
        DropBytesTwice(bios[1..], a - p.size, b);
      } else {
        var left := DropBytes(bios, a);
        assert left[0] == DropHead(p, a) && left[1..] == bios[1..];
        if a + b < p.size {
          DropHeadTwice(p, a, b);
          var twice, once := DropBytes(left, b), DropBytes(bios, a + b);
          assert twice == [DropHead(DropHead(p, a), b)] + bios[1..];
          assert once == [DropHead(p, a + b)] + bios[1..];
          assert twice[0] == once[0] ==> twice == once;
        }
      }
    }
  }

  /** What is left: nothing exactly when all bytes were taken, and the right number otherwise. */
  lemma {:induction false} DropBytesTotal(bios: seq<Pending>, n: nat)
    requires AllWellFormed(bios)
    ensures AllWellFormed(DropBytes(bios, n))
    ensures DropBytes(bios, n) == [] <==> n >= Total(bios)
    ensures Total(DropBytes(bios, n)) == if n >= Total(bios) then 0 else Total(bios) - n
    decreases |bios|
  {
    hide WellFormed;
    if bios != [] {
      var p := bios[0];
      assert WellFormed(p);
      if n >= p.size { DropBytesTotal(bios[1..], n - p.size); }
      else { DropHeadTwice(p, n, 0); }
    }
  }

  lemma {:induction false} DropWholeSectors(bios: seq<Pending>, n: nat)
    requires WholeSectors(bios) && n % SECTOR == 0
    ensures WholeSectors(DropBytes(bios, n))
    decreases |bios|
  {
    if bios != [] && n >= bios[0].size { DropWholeSectors(bios[1..], n - bios[0].size); }
  }

  /** In bios of whole sectors it is only the amounts that matter. */
  lemma {:induction false} WholeSectorsAddUp(bios: seq<Pending>, a: nat, b: nat)
    requires WholeSectors(bios) && RoundsAlike(a, b)
    ensures SectorsAddUp(bios, a, b)
    decreases |bios|
  {
    if bios != [] && a >= bios[0].size {
      assert bios[0].size % SECTOR == 0;
      WholeSectorsAddUp(bios[1..], a - bios[0].size, b);
    }
  }

  // ---- every bio is credited what it lost ----

  function Credited(credits: seq<Credit>, id: nat): nat {
    if credits == [] then 0
    else (if credits[0].id == id then credits[0].bytes else 0) + Credited(credits[1..], id)
  }

  function SizeOf(bios: seq<Pending>, id: nat): nat {
    if bios == [] then 0 else (if bios[0].id == id then bios[0].size else 0) + SizeOf(bios[1..], id)
  }

  lemma {:induction false} CreditsExact(bios: seq<Pending>, n: nat, id: nat)
    ensures Credited(Credits(bios, n), id) + SizeOf(DropBytes(bios, n), id) == SizeOf(bios, id)
    decreases |bios|
  {
    if bios != [] {
      var p := bios[0];
      if n >= p.size {
        CreditsExact(bios[1..], n - p.size, id);
        assert Credits(bios, n)[1..] == Credits(bios[1..], n - p.size);
      }
    }
  }

  lemma {:induction false} CreditedConcat(a: seq<Credit>, b: seq<Credit>, id: nat)
    ensures Credited(a + b, id) == Credited(a, id) + Credited(b, id)
    decreases |a|
  {
    if a == [] { assert a + b == b; }
    else {
      assert (a + b)[1..] == a[1..] + b;
      CreditedConcat(a[1..], b, id);
    }
  }

  /** Whatever the amounts of the calls that finish a request, each bio is told its size. */
  lemma {:induction false} CreditedInFull(bios: seq<Pending>, amounts: seq<nat>, id: nat)
    ensures Credited(AllCredits(bios, amounts), id) + SizeOf(AfterAll(bios, amounts), id) == SizeOf(bios, id)
    decreases |amounts|
  {
    if amounts != [] {
      var n := amounts[0];
      CreditsExact(bios, n, id);
      CreditedInFull(DropBytes(bios, n), amounts[1..], id);
      CreditedConcat(Credits(bios, n), AllCredits(DropBytes(bios, n), amounts[1..]), id);
    }
  }

  function AfterAll(bios: seq<Pending>, amounts: seq<nat>): seq<Pending>
    decreases |amounts|
  {
    if amounts == [] then bios else AfterAll(DropBytes(bios, amounts[0]), amounts[1..])
  }

  function AllCredits(bios: seq<Pending>, amounts: seq<nat>): seq<Credit>
    decreases |amounts|
  {
    if amounts == [] then [] else Credits(bios, amounts[0]) + AllCredits(DropBytes(bios, amounts[0]), amounts[1..])
  }

  // ---- the sector range ----

  /** What is left of a request has a first vector no longer than the request. */
  lemma FirstVector(bios: seq<Pending>, hardNr: int)
    requires AllWellFormed(bios) && bios != [] && hardNr * SECTOR >= Total(bios)
    ensures CurSectors(bios) <= hardNr
  {
    assert WellFormed(bios[0]);
    assert bios[0].rest != [] && bios[0].rest[0].len <= bios[0].size <= Total(bios);
  }

  /** Moving the range on in two steps, as long as the first vector fits in what is left. */
  lemma RecalcTwice(st: State, first: seq<Pending>, second: seq<Pending>, x: nat, y: nat)
    requires st.fs && st.cur <= st.nr
    requires CurSectors(first) <= st.hardNr - x && CurSectors(second) <= st.hardNr - x - y
    ensures RecalcSectors(RecalcSectors(st.(bios := first), x).(bios := second), y)
         == RecalcSectors(st.(bios := second), x + y)
  {
    hide CurSectors;
  }

  lemma SectorsLeft(hardNr: int, total: nat, n: nat)
    requires hardNr * SECTOR == total && n < total
    ensures (hardNr - n / SECTOR) * SECTOR >= total - n
    ensures (hardNr - n / SECTOR) * SECTOR == total - n <==> n % SECTOR == 0
  {
  }

  /** A call that leaves something moves the range on and never makes the "request botched"
      correction; the range is still what the bios hold exactly when the amount was whole
      sectors. */
  lemma EndBytesConsistent(st: State, n: nat)
    requires Consistent(st) && st.fs && n < Total(st.bios)
    ensures Consistent(EndBytes(st, n)) <==> n % SECTOR == 0
    ensures var st' := EndBytes(st, n);
            st'.hardSector == st.hardSector + n / SECTOR && st'.hardNr == st.hardNr - n / SECTOR
    ensures var st' := EndBytes(st, n); (st'.cur == st.cur && st'.nr == st.nr) || st'.nr == st'.hardNr
  {
    hide DropBytes, Total, AllWellFormed, WholeSectors, CurSectors;
    DropBytesTotal(st.bios, n);
    if n % SECTOR == 0 { DropWholeSectors(st.bios, n); }
    SectorsLeft(st.hardNr, Total(st.bios), n);
    FirstVector(DropBytes(st.bios, n), st.hardNr - n / SECTOR);
  }

  /** While bytes remain, it does not matter how they were split. */
  lemma SplitWhileBytesRemain(st: State, a: nat, b: nat)
    requires Consistent(st) && st.fs && RoundsAlike(a, b) && a + b < Total(st.bios)
    ensures EndBytes(EndBytes(st, a), b) == EndBytes(st, a + b)
  {
    hide DropBytes, Total, AllWellFormed, WholeSectors, CurSectors, RecalcSectors, RoundsAlike;
    var first, second := DropBytes(st.bios, a), DropBytes(st.bios, a + b);
    DropBytesTotal(st.bios, a);
    DropBytesTotal(st.bios, a + b);
    DropBytesTwice(st.bios, a, b);
    WholeSectorsAddUp(st.bios, a, b);
    SectorsLeft(st.hardNr, Total(st.bios), a);
    SectorsLeft(st.hardNr, Total(st.bios), a + b);
    Rounding(a, b);
    FirstVector(first, st.hardNr - a / SECTOR);
    FirstVector(second, st.hardNr - a / SECTOR - b / SECTOR);
    RecalcTwice(st, first, second, a / SECTOR, b / SECTOR);
    RecalcBios(st.(bios := first), a / SECTOR);
  }

  lemma RecalcBios(st: State, nsect: int)
    ensures RecalcSectors(st, nsect).bios == st.bios
  {
  }

  lemma RangeMoves(st: State, n: nat)
    requires st.fs && AllWellFormed(st.bios)
    ensures var st' := EndBytes(st, n);
            var moved := if n < Total(st.bios) then n / SECTOR else 0;
            st'.hardSector == st.hardSector + moved && st'.hardNr == st.hardNr - moved
    ensures EndBytes(st, n).fs && EndBytes(st, n).bios == DropBytes(st.bios, n)
  {
    hide DropBytes, Total, AllWellFormed, CurSectors;
    DropBytesTotal(st.bios, n);
  }

  /** The bytes left agree for every request and every split.  The range of a file system
      request agrees exactly when the second call had nothing to do, or it finished the request
      and the first did not end a sector, or it did not and rounding adds up: the call that
      finishes a request leaves the range as it was. */
  lemma SplitExactlyWhen(st: State, a: nat, b: nat)
    requires st.fs && AllWellFormed(st.bios)
    ensures SameBytes(EndBytes(EndBytes(st, a), b).bios, EndBytes(st, a + b).bios)
    ensures var twice, once := EndBytes(EndBytes(st, a), b), EndBytes(st, a + b);
            (twice.hardSector == once.hardSector && twice.hardNr == once.hardNr)
            <==> (Total(st.bios) <= a || (if a + b < Total(st.bios) then RoundsAlike(a, b) else a < SECTOR))
  {
    hide DropBytes, Total, AllWellFormed, RecalcSectors, EndBytes, RoundsAlike;
    DropBytesTwice(st.bios, a, b);
    DropBytesTotal(st.bios, a);
    RangeMoves(st, a);
    RangeMoves(st, a + b);
    RangeMoves(EndBytes(st, a), b);
    Rounding(a, b);
  }

  /** Two sectors ended one by one leave the range at the second; ended at once they leave it
      at the first. */
  lemma SplitDiffers()
    ensures var st := State(true, [Pending(7, 0, 1024, [Vec(0, 0, 1024)])], 0, 2, 0, 2, 2);
            && Consistent(st) && EndBytes(EndBytes(st, 512), 512).hardSector == 1 && EndBytes(st, 1024).hardSector == 0
  {
    var st := State(true, [Pending(7, 0, 1024, [Vec(0, 0, 1024)])], 0, 2, 0, 2, 2);
    assert Size([Vec(0, 0, 1024)]) == 1024 + Size([]) && Total(st.bios) == 1024 + Total([]);
    RangeMoves(st, 512);
    DropBytesTotal(st.bios, 512);
    RangeMoves(EndBytes(st, 512), 512);
    RangeMoves(st, 1024);
  }

  // ---- in place ----

  function Pend(b: Bio): Pending
    requires b.idx <= |b.vecs|
  {
    Pending(b.id, b.sector, b.size, b.vecs[b.idx..])
  }

  predicate Indexed(bios: seq<Bio>) {
    forall i :: 0 <= i < |bios| ==> bios[i].idx <= |bios[i].vecs|
  }

  function PendAll(bios: seq<Bio>): seq<Pending>
    requires Indexed(bios)
  {
    seq(|bios|, i requires 0 <= i < |bios| => Pend(bios[i]))
  }

  /** Where the loop stands inside the first bio: `next` vectors, `done` bytes, are done and
      `n` bytes of the amount are left. */
  ghost predicate Inside(b: Bio, next: nat, done: nat, n: nat) {
    && b.idx + next < |b.vecs|
    && done == Size(b.vecs[b.idx..][..next]) && done + n < b.size
  }

  lemma PendTail(bios: seq<Bio>)
    requires Indexed(bios) && bios != []
    ensures PendAll(bios)[0] == Pend(bios[0]) && PendAll(bios)[1..] == PendAll(bios[1..])
  {
  }

  lemma {:induction false} LengthMore(vecs: seq<Vec>, k: nat)
    requires k < |vecs|
    ensures Size(vecs[..k + 1]) == Size(vecs[..k]) + vecs[k].len
    decreases k
  {
    if k > 0 {
      assert vecs[..k + 1][1..] == vecs[1..][..k] && vecs[..k][1..] == vecs[1..][..k - 1];
      LengthMore(vecs[1..], k - 1);
    } else {
      assert vecs[..1] == [vecs[0]] && vecs[..0] == [] && vecs[..1][1..] == [];
    }
  }

  lemma {:induction false} LengthMonotone(vecs: seq<Vec>, k: nat)
    requires k <= |vecs|
    ensures Size(vecs[..k]) <= Size(vecs)
    decreases k
  {
    if k > 0 {
      assert vecs[..k][1..] == vecs[1..][..k - 1];
      LengthMonotone(vecs[1..], k - 1);
    }
  }

  /** A bio that is not finished has a vector to go on with. */
  lemma NextVector(b: Bio, next: nat, done: nat, n: nat)
    requires Inside(b, next, done, n) && WellFormed(Pend(b)) && b.vecs[b.idx + next].len <= n
    ensures Inside(b, next + 1, done + b.vecs[b.idx + next].len, n - b.vecs[b.idx + next].len)
  {
    var rest := b.vecs[b.idx..];
    LengthMore(rest, next);
    assert rest[..|rest|] == rest;
  }

  /** The update of the first bio once its share of the amount is known. */
  function Advanced(b: Bio, next: nat, bytes: nat, n: nat): Bio
    requires b.idx + next < |b.vecs| && bytes <= b.size && n <= b.vecs[b.idx + next].len
  {
    var i := b.idx + next;
    var v := b.vecs[i];
    Bio(b.id, b.sector + bytes / SECTOR, b.size - bytes, b.vecs[i := Vec(v.page, v.offset + n, v.len - n)], i)
  }

  lemma UpdatedTail<T>(s: seq<T>, i: nat, x: T)
    requires i < |s|
    ensures s[i := x][i..] == [x] + s[i..][1..]
  {
  }

  lemma AdvancedIsDropped(b: Bio, next: nat, done: nat, n: nat)
    requires Inside(b, next, done, n) && WellFormed(Pend(b)) && n < b.vecs[b.idx + next].len
    ensures Pend(Advanced(b, next, done + n, n)) == DropHead(Pend(b), done + n)
  {
    hide NoEmptyVec, Size, DropVecs;
    var rest, i := b.vecs[b.idx..], b.idx + next;
    var v := b.vecs[i];
    DropVecsSkip(rest, next, n);
    assert rest[next..] == b.vecs[i..];
    UpdatedTail(b.vecs, i, Vec(v.page, v.offset + n, v.len - n));
    DropWithin(b.vecs[i..], n);
  }

  /** Part of the first vector. */
  lemma DropWithin(vecs: seq<Vec>, n: nat)
    requires vecs != [] && n < vecs[0].len
    ensures DropVecs(vecs, n) == [Vec(vecs[0].page, vecs[0].offset + n, vecs[0].len - n)] + vecs[1..]
  {
    assert vecs == [vecs[0]] + vecs[1..];
  }

  class Request {
    const fs: bool
    var bios: seq<Bio>
    var hardSector: int
    var hardNrSectors: int
    var sector: int
    var nrSectors: int
    var currentNrSectors: int
    var credits: seq<Credit>

    constructor (fs: bool, bios: seq<Bio>, sector: int, nrSectors: int, currentNrSectors: int)
      ensures this.fs == fs && this.bios == bios && this.credits == []
      ensures this.sector == hardSector == sector && this.nrSectors == hardNrSectors == nrSectors
      ensures this.currentNrSectors == currentNrSectors
    {
      this.fs, this.bios, this.credits := fs, bios, [];
      this.sector, this.hardSector, this.nrSectors, this.hardNrSectors := sector, sector, nrSectors, nrSectors;
      this.currentNrSectors := currentNrSectors;
    }

    ghost predicate Valid()
      reads this
    {
      Indexed(bios) && AllWellFormed(PendAll(bios))
    }

    ghost function View(): State
      requires Indexed(bios)
      reads this
    {
      State(fs, PendAll(bios), hardSector, hardNrSectors, sector, nrSectors, currentNrSectors)
    }

    method RecalcRqSectors(nsect: int)
      requires Indexed(bios) && bios != [] && bios[0].idx < |bios[0].vecs|
      modifies this`hardSector, this`hardNrSectors, this`sector, this`nrSectors, this`currentNrSectors
      ensures View() == RecalcSectors(old(View()), nsect)
    {
      if fs {
        hardSector := hardSector + nsect;
        hardNrSectors := hardNrSectors - nsect;
        if nrSectors >= hardNrSectors && sector <= hardSector {
          sector := hardSector;
          nrSectors := hardNrSectors;
          currentNrSectors := bios[0].vecs[bios[0].idx].len / SECTOR;
        }
        if nrSectors < currentNrSectors { nrSectors := currentNrSectors; }
      }
    }

    /** First part of the loop: finish every bio the amount covers. */
    method EndWholeBios(nrBytes: nat) returns (left: nat)
      requires Valid()
      modifies this`bios, this`credits
      ensures Valid() && (bios != [] ==> left < bios[0].size)
      ensures DropBytes(old(PendAll(bios)), nrBytes) == DropBytes(PendAll(bios), left)
      ensures old(credits) + Credits(old(PendAll(bios)), nrBytes) == credits + Credits(PendAll(bios), left)
      ensures bios == [] || nrBytes - left == Total(old(PendAll(bios))) - Total(PendAll(bios))
    {
      left := nrBytes;
      ghost var start := PendAll(bios);
      while bios != [] && left >= bios[0].size
        invariant Valid()
        invariant DropBytes(start, nrBytes) == DropBytes(PendAll(bios), left)
        invariant old(credits) + Credits(start, nrBytes) == credits + Credits(PendAll(bios), left)
        invariant nrBytes - left == Total(start) - Total(PendAll(bios))
        decreases |bios|
      {
        PendTail(bios);
        left := left - bios[0].size;
        credits := credits + [Credit(bios[0].id, bios[0].size)];
        bios := bios[1..];
      }
    }

    /** Second part: go over the vectors of the bio in which the amount ends. */
    method FindVector(nrBytes: nat) returns (next: nat, left: nat)
      requires Valid() && bios != [] && nrBytes < bios[0].size
      ensures left <= nrBytes && Inside(bios[0], next, nrBytes - left, left)
      ensures left < bios[0].vecs[bios[0].idx + next].len
    {
      var bio := bios[0];
      assert WellFormed(PendAll(bios)[0]);
      next, left := 0, nrBytes;
      while bio.vecs[bio.idx + next].len <= left
        invariant left <= nrBytes && Inside(bio, next, nrBytes - left, left)
        decreases |bio.vecs| - next
      {
        NextVector(bio, next, nrBytes - left, left);
        left := left - bio.vecs[bio.idx + next].len;
        next := next + 1;
      }
    }

    /** Take the rest of the amount off the bio in which it ends. */
    method EndPart(left: nat)
      requires Valid() && bios != [] && left < bios[0].size
      modifies this`bios, this`credits
      ensures Indexed(bios) && bios != [] && PendAll(bios) == DropBytes(old(PendAll(bios)), left)
      ensures credits == old(credits) + Credits(old(PendAll(bios)), left)
    {
      PendTail(bios);
      var next, rest := FindVector(left);
      if left > 0 {
        var bio := bios[0];
        credits := credits + [Credit(bio.id, left)];
        AdvancedIsDropped(bio, next, left - rest, rest);
        bios := [Advanced(bio, next, left, rest)] + bios[1..];
        PendTail(bios);
      }
    }

    /** __end_that_request_first: false when the request is finished. */
    method EndThatRequestFirst(nrBytes: nat) returns (pending: bool)
      requires Valid()
      modifies this
      ensures Valid() && View() == EndBytes(old(View()), nrBytes)
      ensures credits == old(credits) + Credits(old(PendAll(bios)), nrBytes)
      ensures pending <==> nrBytes < old(Total(PendAll(bios)))
    {
      hide DropBytes, Credits, Size, Total, NoEmptyVec, RecalcSectors;
      ghost var start := PendAll(bios);
      DropBytesTotal(start, nrBytes);
      var left := EndWholeBios(nrBytes);
      NothingLeft(nrBytes);
      NothingLeft(left);
      if bios == [] {
        assert PendAll(bios) == [];
        return false;
      }
      EndPart(left);
      assert PendAll(bios) == DropBytes(start, nrBytes);
      FirstHasVector(PendAll(bios));
      RecalcRqSectors(nrBytes / SECTOR);
      return true;
    }
  }

  lemma NothingLeft(n: nat)
    ensures DropBytes([], n) == [] && Credits([], n) == []
  {
  }

  lemma FirstHasVector(bios: seq<Pending>)
    requires AllWellFormed(bios) && bios != []
    ensures bios[0].rest != []
  {
    assert WellFormed(bios[0]);
  }
}
