/**
 How long the deadline scheduler can keep a request waiting.  An expired read leaves within a
 number of dispatch calls fixed by its place in the fifo, and reads cannot hold up a write for
 more than a fixed number of calls, over every run of additions, merges and dispatches.
 */
module DeadlineBounds {
  import opened Lists
  import opened SectorTree
  import opened Deadline
  import opened DeadlineQueues

  // ---- runs ----

  ghost predicate ValidRun(t: Tunables, s: State, steps: seq<Step>)
    requires Inv(t, s)
    decreases |steps|
  {
    steps == [] || (Enabled(s, steps[0]) && (StepKeeps(t, s, steps[0]); ValidRun(t, Apply(t, s, steps[0]), steps[1..])))
  }

  ghost function RunFrom(t: Tunables, s: State, steps: seq<Step>): (s': State)
    requires Inv(t, s) && ValidRun(t, s, steps)
    ensures Inv(t, s')
    decreases |steps|
  {
    if steps == [] then s
    else StepKeeps(t, s, steps[0]); RunFrom(t, Apply(t, s, steps[0]), steps[1..])
  }

  function Calls(steps: seq<Step>): (n: nat) {
    if steps == [] then 0 else (if steps[0].DispatchOne? then 1 else 0) + Calls(steps[1..])
  }

  // ---- places in a fifo ----

  function Pos(fifo: seq<Id>, r: Id): (p: nat) {
    if fifo == [] || fifo[0] == r then 0 else 1 + Pos(fifo[1..], r)
  }

  lemma {:induction false} PosWithout(fifo: seq<Id>, r: Id, x: Id)
    requires r in fifo && r != x
    ensures r in Without(fifo, x) && Pos(Without(fifo, x), r) <= Pos(fifo, r)
  {
    if fifo[0] != r {
      PosWithout(fifo[1..], r, x);
      assert fifo[0] != x ==> Without(fifo, x)[1..] == Without(fifo[1..], x);
    } else {
      assert Without(fifo, x)[0] == r;
    }
  }

  lemma PosTail(fifo: seq<Id>, r: Id)
    requires r in fifo && Distinct(fifo) && r != fifo[0]
    ensures r in fifo[1..] && Without(fifo, fifo[0]) == fifo[1..] && Pos(fifo[1..], r) == Pos(fifo, r) - 1
  {
    WithoutAbsent(fifo[1..], fifo[0]);
  }

  lemma {:induction false} PosSnoc(fifo: seq<Id>, r: Id, x: Id)
    requires r in fifo
    ensures Pos(fifo + [x], r) == Pos(fifo, r)
  {
    if fifo[0] != r {
      PosSnoc(fifo[1..], r, x);
      assert (fifo + [x])[1..] == fifo[1..] + [x];
    }
  }

  lemma {:induction false} PosSwapped(fifo: seq<Id>, id: Id, next: Id, r: Id)
    requires Distinct(fifo) && id in fifo && next in fifo && id != next && Before(fifo, next, id)
    requires r in fifo && r != next
    ensures Pos(Swapped(fifo, id, next), r) <= Pos(fifo, r)
  {
    var tail := fifo[1..];
    if fifo[0] == next {
      assert Swapped(fifo, id, next)[1..] == Without(tail, id);
      if r != id { PosWithout(tail, r, id); }
    } else if fifo[0] != r {
      PosSwapped(tail, id, next, r);
      assert Swapped(fifo, id, next)[1..] == Swapped(tail, id, next);
    }
  }

  lemma {:induction false} HeadSoonest(rqs: Requests, fifo: seq<Id>, r: Id)
    requires ByExpiry(rqs, fifo) && r in fifo
    ensures Of(rqs, fifo[0]).expire <= Of(rqs, r).expire
  {
    assert r == fifo[0] || r in fifo[1..];
  }

  // ---- what one call of deadline_dispatch_requests does ----

  const INT_MAX: nat := 0x7fff_ffff

  /** The fifos after a request has been moved to the dispatch queue. */
  lemma MoveFifos(s: State, id: Id, w: bool)
    requires w == Of(s.rqs, id).write
    ensures Get(MoveRequest(s, id), w).fifo == Without(Get(s, w).fifo, id)
    ensures Get(MoveRequest(s, id), !w).fifo == Get(s, !w).fifo
  {
  }

  /** Which request a call dispatches, and the counters it leaves. */
  datatype Call = Call(id: Id, batching: nat, starved: nat)

  function Found(s: State, w: bool, starved: nat): (c: Call)
    requires Get(s, w).fifo != [] && Get(s, w).tree != []
  {
    var side := Get(s, w);
    if HeadExpired(s, w) then Call(side.fifo[0], 1, starved)
    else if side.next.Some? then Call(side.next.value, (s.batching + 1) % U32, starved)
    else Call(side.tree[0], 1, starved)
  }

  function Chosen(t: Tunables, s: State): (c: Call)
    requires NoBug(s) && (s.readSide.fifo != [] || s.writeSide.fifo != [])
  {
    var s1 := s.(batching := Charged(t, s));
    var anyReads, anyWrites := s.readSide.fifo != [], s.writeSide.fifo != [];
    if InBatch(t, s) then Call(Candidate(s).value, (Charged(t, s) + 1) % U32, s.starved)
    else if !anyReads || (anyWrites && s.starved >= t.writesStarved) then Found(s1, true, 0)
    else Found(s1, false, if anyWrites then (s.starved + 1) % U32 else s.starved)
  }

  function Ready(s: State, c: Call): (s': State) {
    s.(batching := c.batching, starved := c.starved)
  }

  lemma IssueIs(s: State, s1: State, c: Call)
    requires s1.(batching := (s1.batching + 1) % U32) == Ready(s, c)
    ensures Issue(s1, c.id) == MoveRequest(Ready(s, c), c.id)
  {
  }

  lemma FoundIs(s: State, s1: State, w: bool, n: nat)
    requires Get(s, w).fifo != [] && Get(s, w).tree != [] && s1 == s.(starved := n)
    ensures FindRequest(s1, w) == MoveRequest(Ready(s, Found(s, w, n)), Found(s, w, n).id)
  {
    var side, c := Get(s, w), Found(s, w, n);
    if HeadExpired(s, w) {
      IssueIs(s, s1.(batching := 0), c);
    } else if side.next.Some? {
      IssueIs(s, s1, c);
    } else {
      IssueIs(s, s1.(batching := 0), c);
    }
  }

  lemma DispatchIs(t: Tunables, s: State)
    requires NoBug(s) && (s.readSide.fifo != [] || s.writeSide.fifo != [])
    ensures Dispatch(t, s) == MoveRequest(Ready(s, Chosen(t, s)), Chosen(t, s).id)
  {
    var s1 := s.(batching := Charged(t, s));
    var anyReads, anyWrites := s.readSide.fifo != [], s.writeSide.fifo != [];
    if InBatch(t, s) {
      IssueIs(s, s1, Chosen(t, s));
    } else if !anyReads || (anyWrites && s.starved >= t.writesStarved) {
      FoundIs(s1, s1.(starved := 0), true, 0);
      assert Ready(s1, Chosen(t, s)) == Ready(s, Chosen(t, s));
    } else {
      var n := if anyWrites then (s.starved + 1) % U32 else s.starved;
      FoundIs(s1, s1.(starved := n), false, n);
      assert Ready(s1, Chosen(t, s)) == Ready(s, Chosen(t, s));
    }
  }

  // ---- the batch counter, which wraps around at 32 bits ----

  function Batch(t: Tunables): (b: nat)
    ensures b >= 1
  {
    if t.fifoBatch == 0 then 1 else t.fifoBatch
  }

  /** For this one batch size a counter that has just been left out of a batch can wrap
      around to exactly 0, again and again. */
  function Thirds(t: Tunables): (n: nat) {
    if 3 * t.fifoBatch + 1 == U32 then 1 else 0
  }

  /** How many more calls the batch can last, if need be after wrapping around. */
  function Room(t: Tunables, b: nat): (n: nat)
    ensures n <= t.fifoBatch
  {
    if b < t.fifoBatch then t.fifoBatch - b
    else if b < U32 <= b + t.fifoBatch then U32 - b
    else 0
  }

  /** What a call makes of the counter: `c` is the counter as the call finds it, after the
      charge for a jump in sectors, and `b'` what it leaves. */
  predicate Counted(t: Tunables, b: nat, c: nat, b': nat) {
    && t.fifoBatch <= INT_MAX && b < U32
    && (c == b || c == (b + t.fifoBatch) % U32)
    && (b' == (c + 1) % U32 || b' == 1)
  }

  lemma Wraps(t: Tunables, b: nat, c: nat, b': nat)
    requires Counted(t, b, c, b')
    ensures c == b || c == b + t.fifoBatch || c == b + t.fifoBatch - U32
    ensures b' == 1 || b' == c + 1 || (c + 1 == U32 && b' == 0)
  {
  }

  /** A call within a batch uses up room. */
  lemma RoomShrinks(t: Tunables, b: nat, c: nat, b': nat)
    requires Counted(t, b, c, b') && c < t.fifoBatch && b' == (c + 1) % U32
    ensures b' == c + 1 <= t.fifoBatch && Room(t, b') + 1 == Room(t, b)
    ensures b >= t.fifoBatch ==> c == b + t.fifoBatch - U32
  {
    Wraps(t, b, c, b');
  }

  // ---- the two potentials ----

  /** How many calls there can be before a read is chosen. */
  function Held(t: Tunables, b: nat, starved: nat): (n: nat)
    ensures n <= 2 * Batch(t) + Thirds(t)
  {
    if starved < t.writesStarved then Room(t, b)
    else if b <= t.fifoBatch then t.fifoBatch - b + Batch(t) + Thirds(t)
    else if b < U32 <= b + t.fifoBatch then U32 - b + Batch(t) + Thirds(t)
    else t.fifoBatch + 1
  }

  lemma HeldInBatch(t: Tunables, b: nat, c: nat, b': nat, starved: nat)
    requires Counted(t, b, c, b') && c < t.fifoBatch && b' == (c + 1) % U32
    ensures Held(t, b', starved) < Held(t, b, starved)
  {
    RoomShrinks(t, b, c, b');
  }

  /** After a write was chosen the next choice is for a read. */
  lemma HeldByWrite(t: Tunables, b: nat, c: nat, b': nat, starved: nat)
    requires Counted(t, b, c, b') && (c >= t.fifoBatch || b' == 1) && starved >= t.writesStarved >= 1
    ensures Held(t, b', 0) < Held(t, b, starved)
  {
    Wraps(t, b, c, b');
  }

  /** A read chosen because it has expired starts the count anew. */
  lemma HeldAfresh(t: Tunables, starved: nat)
    requires t.fifoBatch <= INT_MAX
    ensures Held(t, 1, starved) + 1 <= 2 * Batch(t) + Thirds(t)
  {
  }

  /** For that batch size, and a write after every read chosen, each place costs one call more. */
  function Dear(t: Tunables): (n: nat) {
    if Thirds(t) == 1 && t.writesStarved == 1 then 1 else 0
  }

  /** If there are two or more reads to a write, the call more is paid for by another read. */
  function Due(t: Tunables, starved: nat): (n: nat) {
    if Thirds(t) == 1 && t.writesStarved >= 2 && starved + 1 == t.writesStarved then 1 else 0
  }

  /** What a waiting read has in front of it. */
  function Wait(t: Tunables, b: nat, starved: nat, p: nat): (n: nat)
    ensures n >= 1
  {
    Held(t, b, starved) + 1 + p * (2 * Batch(t) + Dear(t)) + Due(t, starved)
  }

  /** The promise to an expired read at place p of its fifo is 2p + 3 batches.  It is not kept
      only with this batch size, writes_starved 1, and as many reads in front as the batch is
      long. */
  predicate PlainRead(t: Tunables, p: nat) {
    !(3 * t.fifoBatch + 1 == U32 && t.writesStarved == 1 && p + 2 > t.fifoBatch)
  }

  function Latency(t: Tunables, p: nat): (n: nat) {
    if PlainRead(t, p) then (2 * p + 3) * Batch(t) else (2 * p + 2) * Batch(t) + p + 2
  }

  // ---- reads in front of a write ----

  /** How many more reads than writes_starved + 1 batches may go in front of a write. */
  function Extra(t: Tunables): (n: nat) {
    if 3 * t.fifoBatch + 1 == U32 then t.writesStarved
    else if t.fifoBatch == 1 then t.writesStarved / INT_MAX
    else 0
  }

  /** The counter may wrap around into a batch after the next choice. */
  function Near(t: Tunables, b: nat, n: nat): (e: nat) {
    if t.fifoBatch >= 2 && n >= 1 && t.fifoBatch < b && b + t.fifoBatch < U32 <= b + 2 * t.fifoBatch + 1 then 1
    else 0
  }

  /** Batches of one: a jump adds two to the counter, and INT_MAX of them take it around. */
  function OneByOne(b: nat, n: nat): (r: nat) {
    if b == 0 then 1 + n + n / INT_MAX else n + (b - 1 + 2 * n) / (2 * INT_MAX)
  }

  /** What reads may still do while the next n choices are for a read. */
  function Reads(t: Tunables, b: nat, n: nat): (r: nat) {
    if t.fifoBatch == 1 then OneByOne(b, n)
    else Room(t, b) + n * (Batch(t) + Thirds(t)) + Near(t, b, n)
  }

  function Choices(t: Tunables, starved: nat): (n: nat) {
    if starved < t.writesStarved then t.writesStarved - starved else 0
  }

  lemma Halves(n: nat)
    ensures n / INT_MAX == (2 * n) / (2 * INT_MAX)
  {
  }

  lemma ReadsInBatch(t: Tunables, b: nat, c: nat, b': nat, n: nat)
    requires Counted(t, b, c, b') && c < t.fifoBatch && b' == (c + 1) % U32
    ensures Reads(t, b', n) < Reads(t, b, n)
  {
    RoomShrinks(t, b, c, b');
    Halves(n);
  }

  lemma ReadsByChoice(t: Tunables, b: nat, c: nat, b': nat, n: nat)
    requires Counted(t, b, c, b') && (c >= t.fifoBatch || b' == 1) && 1 <= n
    ensures Reads(t, b', n - 1) < Reads(t, b, n)
  {
    Wraps(t, b, c, b');
    if t.fifoBatch == 1 {
      Halves(n);
      Halves(n - 1);
    } else {
      var m := Batch(t) + Thirds(t);
      assert (n - 1) * m == n * m - m;
    }
  }

  lemma Times(p: nat, q: nat, m: nat)
    requires p <= q
    ensures p * m <= q * m
  {
  }

  /** The direction of the request a call dispatches. */
  lemma ChosenDir(t: Tunables, s: State)
    requires Inv(t, s) && NoBug(s) && (s.readSide.fifo != [] || s.writeSide.fifo != [])
    ensures InBatch(t, s) ==> Of(s.rqs, Chosen(t, s).id).write == s.writeSide.next.Some?
    ensures !InBatch(t, s) ==>
              Of(s.rqs, Chosen(t, s).id).write == (s.readSide.fifo == [] || (s.writeSide.fifo != [] &&
                s.starved >= t.writesStarved))
  {
    Apart(t, s, true);
    Apart(t, s, false);
    var s1 := s.(batching := Charged(t, s));
    if !InBatch(t, s) {
      if s.readSide.fifo == [] || (s.writeSide.fifo != [] && s.starved >= t.writesStarved) {
        FoundDir(t, s1, true, 0);
      } else {
        FoundDir(t, s1, false, Chosen(t, s).starved);
      }
    }
  }

  lemma FoundDir(t: Tunables, s: State, w: bool, n: nat)
    requires SideInv(s.rqs, Get(s, w), w, s.now + Expiry(t, w), None)
    requires Get(s, w).fifo != [] && Get(s, w).tree != []
    ensures Of(s.rqs, Found(s, w, n).id).write == w
  {
    var x, y := Get(s, w).fifo[0], Get(s, w).tree[0];
    assert x in Get(s, w).fifo && y in Get(s, w).tree;
  }

  // ---- one call ----

  lemma CallEffect(t: Tunables, s: State, s': State, c: Call, w: bool)
    requires Inv(t, s) && NoBug(s) && (s.readSide.fifo != [] || s.writeSide.fifo != [])
    requires s' == Dispatch(t, s) && c == Chosen(t, s) && w == Of(s.rqs, c.id).write
    ensures s'.batching == c.batching && s'.starved == c.starved
    ensures Get(s', w).fifo == Without(Get(s, w).fifo, c.id) && Get(s', !w).fifo == Get(s, !w).fifo
  {
    DispatchIs(t, s);
    MoveFifos(Ready(s, c), c.id, w);
  }

  /** The place of a read that stays: no further back, and further forward when the choice was
      for a read. */
  lemma CallPlace(t: Tunables, s: State, r: Id, c: Call, fifo': seq<Id>)
    requires Inv(t, s) && NoBug(s) && s.readSide.fifo != [] && c == Chosen(t, s)
    requires r in s.readSide.fifo && s.now > Of(s.rqs, r).expire
    requires fifo' == if Of(s.rqs, c.id).write then s.readSide.fifo else Without(s.readSide.fifo, c.id)
    requires r in fifo'
    ensures Pos(fifo', r) <= Pos(s.readSide.fifo, r)
    ensures !InBatch(t, s) && !Of(s.rqs, c.id).write ==> c.batching == 1 && Pos(fifo', r) == Pos(s.readSide.fifo, r) - 1
  {
    var fifo := s.readSide.fifo;
    ChosenDir(t, s);
    WithoutHas(fifo, c.id, r);
    if !Of(s.rqs, c.id).write { PosWithout(fifo, r, c.id); }
    if !InBatch(t, s) && !Of(s.rqs, c.id).write {
      HeadSoonest(s.rqs, fifo, r);
      assert c.id == fifo[0] && c.batching == 1;
      PosTail(fifo, r);
    }
  }

  lemma ChosenCounts(t: Tunables, s: State)
    requires t.fifoBatch <= INT_MAX && s.batching < U32
    requires NoBug(s) && (s.readSide.fifo != [] || s.writeSide.fifo != [])
    ensures Counted(t, s.batching, Charged(t, s), Chosen(t, s).batching)
    ensures InBatch(t, s) ==>
              Charged(t, s) < t.fifoBatch && Chosen(t, s).batching == (Charged(t, s) + 1) % U32 &&
                Chosen(t, s).starved == s.starved
    ensures !InBatch(t, s) ==> Charged(t, s) >= t.fifoBatch || Chosen(t, s).batching == 1
  {
  }

  lemma ChosenStarved(t: Tunables, s: State)
    requires NoBug(s) && (s.readSide.fifo != [] || s.writeSide.fifo != []) && !InBatch(t, s)
    ensures var st' := Chosen(t, s).starved;
            if s.readSide.fifo == [] || (s.writeSide.fifo != [] && s.starved >= t.writesStarved) then st' == 0
            else st' == s.starved || (s.starved < t.writesStarved && st' == (s.starved + 1) % U32)
  {
  }

  lemma WaitStays(t: Tunables, b: nat, st: nat, p: nat, b': nat, st': nat, p': nat)
    requires p' <= p && Held(t, b', st') < Held(t, b, st) && Due(t, st') <= Due(t, st)
    ensures Wait(t, b', st', p') < Wait(t, b, st, p)
  {
    Times(p', p, 2 * Batch(t) + Dear(t));
  }

  lemma WaitHolds(t: Tunables, b: nat, st: nat, p: nat, p': nat)
    requires p' <= p
    ensures Wait(t, b, st, p') <= Wait(t, b, st, p)
  {
    Times(p', p, 2 * Batch(t) + Dear(t));
  }

  lemma WaitSteps(t: Tunables, b: nat, st: nat, p: nat, st': nat)
    requires p > 0 && t.fifoBatch <= INT_MAX
    requires st' == st || (st < t.writesStarved && st' == (st + 1) % U32)
    ensures Wait(t, 1, st', p - 1) < Wait(t, b, st, p)
  {
    var m := 2 * Batch(t) + Dear(t);
    HeldOnce(t, b, st, st');
    assert (p - 1) * m == p * m - m;
  }

  /** A read is chosen: what it leaves is paid for by its place. */
  lemma HeldOnce(t: Tunables, b: nat, st: nat, st': nat)
    requires t.fifoBatch <= INT_MAX && (st' == st || (st < t.writesStarved && st' == (st + 1) % U32))
    ensures Held(t, 1, st') + 1 + Due(t, st') <= Held(t, b, st) + Due(t, st) + 2 * Batch(t) + Dear(t)
  {
    HeldAfresh(t, st');
  }

  lemma WaitBound(t: Tunables, b: nat, st: nat, p: nat)
    ensures Wait(t, b, st, p) <= Latency(t, p)
  {
    var n, e := Batch(t), Dear(t);
    assert p * (2 * n + e) == 2 * p * n + p * e;
    assert (2 * p + 3) * n == 2 * p * n + 3 * n && (2 * p + 2) * n == 2 * p * n + 2 * n;
    assert p * e == 0 || p * e == p;
  }

  /** While an expired read waits, every call brings it closer. */
  lemma CallBringsCloser(t: Tunables, s: State, s': State, r: Id)
    requires Inv(t, s) && NoBug(s) && t.fifoBatch <= INT_MAX && t.writesStarved >= 1
    requires r in s.readSide.fifo && s.now > Of(s.rqs, r).expire
    requires s' == Dispatch(t, s) && r in s'.readSide.fifo
    ensures Wait(t, s'.batching, s'.starved, Pos(s'.readSide.fifo, r))
          < Wait(t, s.batching, s.starved, Pos(s.readSide.fifo, r))
  {
    var c := Chosen(t, s);
    var w := Of(s.rqs, c.id).write;
    CallEffect(t, s, s', c, w);
    CallPlace(t, s, r, c, s'.readSide.fifo);
    CallWait(t, s, c, Pos(s.readSide.fifo, r), Pos(s'.readSide.fifo, r));
  }

  lemma CallWait(t: Tunables, s: State, c: Call, p: nat, p': nat)
    requires Inv(t, s) && NoBug(s) && t.fifoBatch <= INT_MAX && t.writesStarved >= 1
    requires s.readSide.fifo != [] && c == Chosen(t, s)
    requires p' <= p && (!InBatch(t, s) && !Of(s.rqs, c.id).write ==> c.batching == 1 && p' == p - 1)
    ensures Wait(t, c.batching, c.starved, p') < Wait(t, s.batching, s.starved, p)
  {
    ChosenDir(t, s);
    ChosenCounts(t, s);
    if !InBatch(t, s) { ChosenStarved(t, s); }
    hide Held, Wait, Room, Inv;
    if InBatch(t, s) {
      HeldInBatch(t, s.batching, Charged(t, s), c.batching, s.starved);
      WaitStays(t, s.batching, s.starved, p, c.batching, c.starved, p');
    } else if Of(s.rqs, c.id).write {
      HeldByWrite(t, s.batching, Charged(t, s), c.batching, s.starved);
      WaitStays(t, s.batching, s.starved, p, c.batching, c.starved, p');
    } else {
      WaitSteps(t, s.batching, s.starved, p, c.starved);
    }
  }

  /** While a write waits, every call that dispatches a read uses up some of what reads may do. */
  lemma CallStarves(t: Tunables, s: State, c: Call)
    requires Inv(t, s) && NoBug(s) && t.fifoBatch <= INT_MAX && t.writesStarved < U32
    requires s.writeSide.fifo != [] && c == Chosen(t, s) && !Of(s.rqs, c.id).write
    ensures Reads(t, c.batching, Choices(t, c.starved)) < Reads(t, s.batching, Choices(t, s.starved))
  {
    ChosenDir(t, s);
    ChosenCounts(t, s);
    hide Reads, Room, Inv;
    if InBatch(t, s) {
      ReadsInBatch(t, s.batching, Charged(t, s), c.batching, Choices(t, s.starved));
    } else {
      ReadsByChoice(t, s.batching, Charged(t, s), c.batching, Choices(t, s.starved));
    }
  }

  // ---- one step, for a request that has been queued ----

  /** Nothing is put back into a fifo; what leaves one has been dispatched, unless `absorbed`
      says that it has been merged into another request; what is dispatched leaves. */
  predicate Leaves(s: State, s': State, w: bool, r: Id, absorbed: bool) {
    && (r in Get(s', w).fifo ==> r in Get(s, w).fifo)
    && (r in Get(s, w).fifo && r !in Get(s', w).fifo ==> r in s'.issued || absorbed)
    && (r in s.issued ==> r in s'.issued)
    && (r in s'.issued && r in Get(s', w).fifo && Of(s.rqs, r).write == w ==> r in s.issued)
  }

  /** A request that stays does not fall back, and the counters are not touched. */
  predicate Holds(s: State, s': State, w: bool, r: Id) {
    && s'.batching == s.batching && s'.starved == s.starved
    && (r in Get(s, w).fifo && r in Get(s', w).fifo ==> Pos(Get(s', w).fifo, r) <= Pos(Get(s, w).fifo, r))
  }

  lemma MoveLeaves(s: State, id: Id, w: bool, r: Id)
    ensures Leaves(s, MoveRequest(s, id), w, r, false) && Holds(s, MoveRequest(s, id), w, r)
    ensures MoveRequest(s, id).rqs == s.rqs && MoveRequest(s, id).now == s.now
  {
    var w' := Of(s.rqs, id).write;
    MoveFifos(s, id, w');
    WithoutHas(Get(s, w').fifo, id, r);
    if r in Get(s, w').fifo && r != id { PosWithout(Get(s, w').fifo, r, id); }
  }

  lemma AddRbLeaves(s: State, id: Id, w: bool, r: Id)
    ensures Leaves(s, AddRqRb(s, id), w, r, false) && Holds(s, AddRqRb(s, id), w, r)
    ensures AddRqRb(s, id).rqs == s.rqs && AddRqRb(s, id).now == s.now
  {
    match AliasOf(s.rqs, Get(s, Of(s.rqs, id).write).tree, Of(s.rqs, id).sector)
    case None =>
    case Some(alias) => MoveLeaves(s, alias, w, r);
  }

  lemma QueueLeaves(s: State, s': State, w': bool, id: Id, w: bool, r: Id)
    requires r != id && s' == Queue(s, w', id)
    ensures Leaves(s, s', w, r, false) && Holds(s, s', w, r)
  {
    if r in Get(s, w').fifo { PosSnoc(Get(s, w').fifo, r, id); }
  }

  lemma AddLeaves(t: Tunables, s: State, s': State, id: Id, w': bool, sector: nat, len: nat, w: bool, r: Id)
    requires id !in s.rqs && r in s.rqs && s' == AddRequest(t, s, id, w', sector, len)
    ensures Leaves(s, s', w, r, false) && Holds(s, s', w, r) && Ages(s, s', r)
  {
    var s1 := Registered(t, s, id, w', sector, len);
    AddRbLeaves(s1, id, w, r);
    QueueLeaves(AddRqRb(s1, id), s', w', id, w, r);
  }

  lemma FrontMergeLeaves(s: State, s': State, id: Id, sector: nat, len: nat, w: bool, r: Id)
    requires r in s.rqs && s' == FrontMerge(s, id, sector, len)
    ensures Leaves(s, s', w, r, false) && Holds(s, s', w, r) && Ages(s, s', r)
  {
    AddRbLeaves(TakeOff(s, id).(rqs := Resized(s.rqs, id, sector, len)), id, w, r);
  }

  lemma GrowBackLeaves(s: State, s': State, id: Id, len: nat, w: bool, r: Id)
    requires r in s.rqs && s' == s.(rqs := Resized(s.rqs, id, Of(s.rqs, id).sector, len))
    ensures Leaves(s, s', w, r, false) && Holds(s, s', w, r) && Ages(s, s', r)
  {
  }

  lemma JoinPlaces(rqs: Requests, side: Side, id: Id, next: Id, r: Id)
    requires Distinct(side.fifo) && ByExpiry(rqs, side.fifo) && id in side.fifo && next in side.fifo && id != next
    ensures r in Joined(rqs, side, id, next).fifo <==> r in side.fifo && r != next
    ensures r in side.fifo && r != next ==> Pos(Joined(rqs, side, id, next).fifo, r) <= Pos(side.fifo, r)
  {
    var fifo := side.fifo;
    if Sooner(rqs, next, id) {
      ExpiryBefore(rqs, fifo, next, id);
      MoveIsSwap(rqs, fifo, id, next);
      SwappedHas(fifo, id, next, r);
      if r in fifo && r != next { PosSwapped(fifo, id, next, r); }
    } else {
      WithoutHas(fifo, next, r);
      if r in fifo && r != next { PosWithout(fifo, r, next); }
    }
  }

  lemma JoinLeaves(t: Tunables, s: State, s': State, id: Id, next: Id, w: bool, r: Id)
    requires Inv(t, s) && Enabled(s, Join(id, next)) && r in s.rqs && s' == MergedRequests(s, id, next)
    ensures Leaves(s, s', w, r, r == next) && Holds(s, s', w, r) && Ages(s, s', r)
  {
    var w' := Of(s.rqs, id).write;
    Apart(t, s, w');
    JoinPlaces(s.rqs, Get(s, w'), id, next, r);
  }

  lemma DispatchLeaves(t: Tunables, s: State, s': State, w: bool, r: Id)
    requires Inv(t, s) && NoBug(s) && r in s.rqs && s' == Dispatch(t, s)
    ensures Leaves(s, s', w, r, false) && Ages(s, s', r)
  {
    if s.readSide.fifo == [] && s.writeSide.fifo == [] {
      NoneNext(t, s);
    } else {
      DispatchIs(t, s);
      MoveLeaves(Ready(s, Chosen(t, s)), Chosen(t, s).id, w, r);
    }
  }

  lemma NoneNext(t: Tunables, s: State)
    requires Inv(t, s) && s.readSide.fifo == [] && s.writeSide.fifo == []
    ensures Candidate(s) == None
  {
    NextQueued(s.rqs, s.readSide, false, s.now + t.readExpire);
    NextQueued(s.rqs, s.writeSide, true, s.now + t.writeExpire);
  }

  lemma NextQueued(rqs: Requests, side: Side, w: bool, h: int)
    requires SideInv(rqs, side, w, h, None)
    ensures side.next.Some? ==> side.fifo != []
  {
    if side.next.Some? {
      var x := side.next.value;
      assert x in side.tree && x in side.fifo;
    }
  }

  /** Time does not go back, and a deadline is only ever moved forward. */
  predicate Ages(s: State, s': State, r: Id) {
    && s'.now >= s.now && r in s'.rqs && Of(s'.rqs, r).expire <= Of(s.rqs, r).expire
    && Of(s'.rqs, r).write == Of(s.rqs, r).write
  }

  /** What one step does to a request that has been queued. */
  lemma StepLeaves(t: Tunables, s: State, step: Step, s': State, w: bool, r: Id)
    requires Inv(t, s) && NoBug(s) && Enabled(s, step) && s' == Apply(t, s, step) && r in s.rqs
    ensures Leaves(s, s', w, r, step.Join? && step.next == r)
    ensures !step.DispatchOne? ==> Holds(s, s', w, r)
    ensures Ages(s, s', r)
  {
    match step
    case Add(id, w', sector, len) => AddLeaves(t, s, s', id, w', sector, len, w, r);
    case GrowFront(id, sector, len) => FrontMergeLeaves(s, s', id, sector, len, w, r);
    case GrowBack(id, len) => GrowBackLeaves(s, s', id, len, w, r);
    case Join(id, next) => JoinLeaves(t, s, s', id, next, w, r);
    case DispatchOne => DispatchLeaves(t, s, s', w, r);
    case Tick(now) =>
  }

  // ---- whole runs ----

  lemma {:induction false} NeverBack(t: Tunables, s: State, steps: seq<Step>, w: bool, r: Id)
    requires Inv(t, s) && ValidRun(t, s, steps) && r in s.rqs && r !in Get(s, w).fifo
    ensures r !in Get(RunFrom(t, s, steps), w).fifo
    decreases |steps|
  {
    if steps != [] {
      StepKeeps(t, s, steps[0]);
      var s' := Apply(t, s, steps[0]);
      StepLeaves(t, s, steps[0], s', w, r);
      NeverBack(t, s', steps[1..], w, r);
    }
  }

  /** An expired read that is still queued has seen fewer calls than it had to wait for. */
  lemma {:induction false} WaitRun(t: Tunables, s: State, steps: seq<Step>, r: Id)
    requires Inv(t, s) && ValidRun(t, s, steps) && t.fifoBatch <= INT_MAX && t.writesStarved >= 1
    requires r in s.readSide.fifo && s.now > Of(s.rqs, r).expire
    requires r in RunFrom(t, s, steps).readSide.fifo
    ensures Calls(steps) < Wait(t, s.batching, s.starved, Pos(s.readSide.fifo, r))
    decreases |steps|
  {
    hide Inv, Enabled, NoBug, Wait;
    if steps != [] {
      StepKeeps(t, s, steps[0]);
      var s' := Apply(t, s, steps[0]);
      Known(t, s, false, r);
      StepLeaves(t, s, steps[0], s', false, r);
      if r !in s'.readSide.fifo { NeverBack(t, s', steps[1..], false, r); }
      WaitRun(t, s', steps[1..], r);
      if steps[0].DispatchOne? {
        CallBringsCloser(t, s, s', r);
      } else {
        WaitHolds(t, s.batching, s.starved, Pos(s.readSide.fifo, r), Pos(s'.readSide.fifo, r));
      }
    }
  }

  predicate Absorbed(steps: seq<Step>, r: Id) {
    steps != [] && ((steps[0].Join? && steps[0].next == r) || Absorbed(steps[1..], r))
  }

  /** A request that is no longer queued has been dispatched or merged into another. */
  lemma {:induction false} HowGone(t: Tunables, s: State, steps: seq<Step>, w: bool, r: Id)
    requires Inv(t, s) && ValidRun(t, s, steps) && r in s.rqs
    requires r in Get(s, w).fifo || r in s.issued
    ensures r in Get(RunFrom(t, s, steps), w).fifo || r in RunFrom(t, s, steps).issued || Absorbed(steps, r)
    decreases |steps|
  {
    if steps != [] {
      StepKeeps(t, s, steps[0]);
      var s' := Apply(t, s, steps[0]);
      StepLeaves(t, s, steps[0], s', w, r);
      if r in Get(s', w).fifo || r in s'.issued { HowGone(t, s', steps[1..], w, r); }
    }
  }

  lemma {:induction false} NotIssued(t: Tunables, s: State, steps: seq<Step>, w: bool, r: Id)
    requires Inv(t, s) && ValidRun(t, s, steps) && r in s.rqs && r !in s.issued
    requires Of(s.rqs, r).write == w && r in Get(RunFrom(t, s, steps), w).fifo
    ensures r !in RunFrom(t, s, steps).issued
    decreases |steps|
  {
    if steps != [] {
      StepKeeps(t, s, steps[0]);
      var s' := Apply(t, s, steps[0]);
      StepLeaves(t, s, steps[0], s', w, r);
      if r !in Get(s', w).fifo { NeverBack(t, s', steps[1..], w, r); }
      NotIssued(t, s', steps[1..], w, r);
    }
  }

  /** Deadline latency: an expired read at place p of its fifo is dispatched or merged within
      (2p + 3) batches' worth of dispatch calls, whether or not the 32-bit batch counter wraps
      around on the way; in the one case excepted in `PlainRead` it is within (2p + 2) batches and
      p + 2 calls. */
  lemma {:induction false} ReadLatency(t: Tunables, s: State, steps: seq<Step>, r: Id)
    requires Inv(t, s) && ValidRun(t, s, steps) && t.fifoBatch <= INT_MAX && t.writesStarved >= 1
    requires r in s.readSide.fifo && s.now > Of(s.rqs, r).expire
    requires Calls(steps) >= Latency(t, Pos(s.readSide.fifo, r))
    ensures r in RunFrom(t, s, steps).issued || Absorbed(steps, r)
  {
    assert r in s.rqs;
    HowGone(t, s, steps, false, r);
    WaitBound(t, s.batching, s.starved, Pos(s.readSide.fifo, r));
    if r in RunFrom(t, s, steps).readSide.fifo { WaitRun(t, s, steps, r); }
  }

  /** No call in this run dispatches a write. */
  ghost predicate OnlyReads(t: Tunables, s: State, steps: seq<Step>)
    requires Inv(t, s) && ValidRun(t, s, steps)
    decreases |steps|
  {
    || steps == []
    || (StepKeeps(t, s, steps[0]);
        && (steps[0].DispatchOne? && s.writeSide.fifo != [] ==> !Of(s.rqs, Chosen(t, s).id).write)
        && OnlyReads(t, Apply(t, s, steps[0]), steps[1..]))
  }

  lemma {:induction false} StarveRun(t: Tunables, s: State, steps: seq<Step>, x: Id)
    requires Inv(t, s) && ValidRun(t, s, steps) && OnlyReads(t, s, steps)
    requires t.fifoBatch <= INT_MAX && t.writesStarved < U32
    requires x in s.writeSide.fifo && x in RunFrom(t, s, steps).writeSide.fifo
    ensures Calls(steps) <= Reads(t, s.batching, Choices(t, s.starved))
    decreases |steps|
  {
    hide Inv, Enabled, NoBug, Reads, Chosen;
    if steps != [] {
      StepKeeps(t, s, steps[0]);
      var s' := Apply(t, s, steps[0]);
      Known(t, s, true, x);
      StepLeaves(t, s, steps[0], s', true, x);
      if x !in s'.writeSide.fifo { NeverBack(t, s', steps[1..], true, x); }
      StarveRun(t, s', steps[1..], x);
      if steps[0].DispatchOne? {
        CallStarves(t, s, Chosen(t, s));
        CallEffect(t, s, s', Chosen(t, s), false);
      }
    }
  }

  lemma ReadsBound(t: Tunables, b: nat, n: nat)
    requires n <= t.writesStarved && b < U32
    ensures Reads(t, b, n) <= (t.writesStarved + 1) * Batch(t) + Extra(t)
  {
    var ws := t.writesStarved;
    if t.fifoBatch == 1 {
      Halves(n);
      assert n / INT_MAX <= ws / INT_MAX;
    } else {
      var m := Batch(t) + Thirds(t);
      RoomOrNear(t, b, n);
      assert ws * m == ws * Batch(t) + ws * Thirds(t) && (ws + 1) * Batch(t) == ws * Batch(t) + Batch(t);
      Times(n, ws, m);
    }
  }

  lemma RoomOrNear(t: Tunables, b: nat, n: nat)
    ensures Room(t, b) + Near(t, b, n) <= Batch(t)
  {
  }

  /** Deadline starvation: while a write stays queued, at most (writes_starved + 1) batches'
      worth of reads are dispatched before a write is, whether or not the batch counter wraps
      around, and `Extra` more for two batch sizes. */
  lemma {:induction false} WriteStarvation(t: Tunables, s: State, steps: seq<Step>, x: Id)
    requires Inv(t, s) && ValidRun(t, s, steps) && OnlyReads(t, s, steps)
    requires t.fifoBatch <= INT_MAX && t.writesStarved < U32
    requires x in s.writeSide.fifo && x in RunFrom(t, s, steps).writeSide.fifo
    ensures Calls(steps) <= (t.writesStarved + 1) * Batch(t) + Extra(t)
  {
    StarveRun(t, s, steps, x);
    Counters(t, s);
    ReadsBound(t, s.batching, Choices(t, s.starved));
  }

  // ---- without writes_starved there is no bound ----

  /** One read waits, and no write. */
  predicate Lonely(s: State, r: Id) {
    && s.readSide == Side([r], [r], None) && s.writeSide == Side([], [], None)
    && r in s.rqs && !s.rqs[r].write
    && s.batching < U32 && s.starved < U32
  }

  /** The only write is dispatched. */
  lemma OneWrite(t: Tunables, s: State, r: Id, id: Id)
    requires t.writesStarved == 0 && NoBug(s) && r != id
    requires s.readSide == Side([r], [r], None) && s.writeSide == Side([id], [id], None)
    requires Of(s.rqs, id).write
    ensures var s' := Dispatch(t, s);
            && s'.readSide == s.readSide && s'.writeSide == Side([], [], None)
            && s'.rqs == s.rqs && s'.now == s.now && s'.issued == s.issued + [id]
  {
    var c := Chosen(t, s);
    assert c.id == id;
    DispatchIs(t, s);
    assert Without([id], id) == [];
    assert After([id], id) == None;
  }

  lemma OneAdded(t: Tunables, s: State, s1: State, r: Id, id: Id)
    requires Lonely(s, r) && id !in s.rqs && s1 == AddRequest(t, s, id, true, 0, 0)
    ensures s1.readSide == s.readSide && s1.writeSide == Side([id], [id], None)
    ensures s1.now == s.now && s1.issued == s.issued && s1.batching < U32 && s1.starved < U32
    ensures s1.rqs == s.rqs[id := Request(true, 0, 0, s.now + t.writeExpire)]
  {
    var registered := Registered(t, s, id, true, 0, 0);
    assert AliasOf(registered.rqs, [], 0) == None && Insert(registered.rqs, [], id) == [id];
  }

  lemma TwoSteps(t: Tunables, s: State, a: Step, b: Step, s1: State, s2: State)
    requires Inv(t, s) && NoBug(s) && Enabled(s, a) && s1 == Apply(t, s, a)
    requires Inv(t, s1) && NoBug(s1) && Enabled(s1, b) && s2 == Apply(t, s1, b) && Inv(t, s2)
    ensures ValidRun(t, s, [a, b]) && RunFrom(t, s, [a, b]) == s2
  {
    hide Inv, Apply, Enabled, NoBug;
    assert [a, b][1..] == [b] && [b][1..] == [];
    assert ValidRun(t, s1, [b]) && RunFrom(t, s1, [b]) == s2;
  }

  /** A write that comes and goes: it is dispatched before the read. */
  lemma WriteFirst(t: Tunables, s: State, r: Id, id: Id) returns (s': State)
    requires t.writesStarved == 0 && Inv(t, s) && Lonely(s, r) && id !in s.rqs
    ensures var steps := [Add(id, true, 0, 0), DispatchOne];
            ValidRun(t, s, steps) && s' == RunFrom(t, s, steps) && Calls(steps) == 1
    ensures Inv(t, s') && Lonely(s', r) && s'.now == s.now && s'.rqs[r] == s.rqs[r]
    ensures r !in s.issued ==> r !in s'.issued
    ensures forall x :: x in s'.rqs <==> x in s.rqs || x == id
  {
    hide Inv, HoleInv, ValidRun, RunFrom, Dispatch, AddRequest;
    var add := Add(id, true, 0, 0);
    var s1 := AddRequest(t, s, id, true, 0, 0);
    StepKeeps(t, s, add);
    OneAdded(t, s, s1, r, id);
    NeverBug(t, s1);
    s' := Dispatch(t, s1);
    StepKeeps(t, s1, DispatchOne);
    OneWrite(t, s1, r, id);
    Counters(t, s');
    TwoSteps(t, s, add, DispatchOne, s1, s');
    assert [add, DispatchOne][1..] == [DispatchOne] && [DispatchOne][1..] == [];
  }

  lemma Counters(t: Tunables, s: State)
    requires Inv(t, s)
    ensures s.batching < U32 && s.starved < U32
  {
  }

  lemma Known(t: Tunables, s: State, w: bool, r: Id)
    requires Inv(t, s) && r in Get(s, w).fifo
    ensures r in s.rqs
  {
    Apart(t, s, w);
  }

  lemma {:induction false} RunMore(t: Tunables, s: State, a: seq<Step>, b: seq<Step>)
    requires Inv(t, s) && ValidRun(t, s, a) && ValidRun(t, RunFrom(t, s, a), b)
    ensures ValidRun(t, s, a + b) && RunFrom(t, s, a + b) == RunFrom(t, RunFrom(t, s, a), b)
    ensures Calls(a + b) == Calls(a) + Calls(b)
    decreases |a|
  {
    hide Inv, Apply, Enabled, NoBug;
    if a == [] {
      assert a + b == b;
    } else {
      StepKeeps(t, s, a[0]);
      RunMore(t, Apply(t, s, a[0]), a[1..], b);
      assert (a + b)[1..] == a[1..] + b;
    }
  }

  lemma {:induction false} WritesFirst(t: Tunables, s: State, r: Id, id: Id, n: nat) returns (steps: seq<Step>)
    requires t.writesStarved == 0 && Inv(t, s) && Lonely(s, r) && r !in s.issued
    requires forall x :: x in s.rqs ==> x < id
    ensures ValidRun(t, s, steps) && Calls(steps) == n && !Absorbed(steps, r)
    ensures r in RunFrom(t, s, steps).readSide.fifo && r !in RunFrom(t, s, steps).issued
    decreases n
  {
    if n == 0 {
      steps := [];
    } else {
      var pair := [Add(id, true, 0, 0), DispatchOne];
      var s' := WriteFirst(t, s, r, id);
      var rest := WritesFirst(t, s', r, id + 1, n - 1);
      RunMore(t, s, pair, rest);
      steps := pair + rest;
      assert steps[1..][1..] == rest;
    }
  }

  /** The read that no number of calls dispatches. */
  lemma Overdue(t: Tunables) returns (s: State)
    ensures Inv(t, s) && Lonely(s, 0) && s.now > s.rqs[0].expire && s.issued == [] && forall x :: x in s.rqs ==> x < 1
  {
    var rq := Request(false, 0, 0, 0);
    s := State(map[0 := rq], Side([0], [0], None), Side([], [], None), 0, 0, 0, 1, []);
  }

  /** Every expired read at place p of its fifo leaves within bound(p) calls, in every run. */
  ghost predicate AlwaysWithin(t: Tunables, bound: nat -> nat) {
    forall s: State, steps: seq<Step>, r: Id |
      Inv(t, s) && ValidRun(t, s, steps) && r in s.readSide.fifo && s.now > Of(s.rqs, r).expire
      && Calls(steps) >= bound(Pos(s.readSide.fifo, r)) ::
      r in RunFrom(t, s, steps).issued || Absorbed(steps, r)
  }

  lemma WithinLatency(t: Tunables)
    requires t.fifoBatch <= INT_MAX && t.writesStarved >= 1
    ensures AlwaysWithin(t, p => Latency(t, p))
  {
    forall s: State, steps: seq<Step>, r: Id |
      Inv(t, s) && ValidRun(t, s, steps) && r in s.readSide.fifo && s.now > Of(s.rqs, r).expire
      && Calls(steps) >= Latency(t, Pos(s.readSide.fifo, r))
      ensures r in RunFrom(t, s, steps).issued || Absorbed(steps, r)
    {
      ReadLatency(t, s, steps, r);
    }
  }

  lemma NotWithin(t: Tunables, bound: nat -> nat)
    requires t.writesStarved == 0
    ensures !AlwaysWithin(t, bound)
  {
    var s := Overdue(t);
    assert 0 in s.readSide.fifo && Pos(s.readSide.fifo, 0) == 0;
    var steps := WritesFirst(t, s, 0, 1, bound(0));
  }

  /** There is a bound on the wait of an expired read exactly when writes_starved is not 0. */
  lemma InTimeExactlyWhen(t: Tunables)
    requires t.fifoBatch <= INT_MAX
    ensures (exists bound: nat -> nat :: AlwaysWithin(t, bound)) <==> t.writesStarved >= 1
  {
    hide AlwaysWithin;
    if t.writesStarved >= 1 {
      WithinLatency(t);
    } else {
      forall bound: nat -> nat ensures !AlwaysWithin(t, bound) { NotWithin(t, bound); }
    }
  }
}
