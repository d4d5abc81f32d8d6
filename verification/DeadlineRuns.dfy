/**
 The bounds of the deadline scheduler are reached: runs from the empty scheduler in which the
 batch counter wraps around show that the two promises are not kept in the cases excepted, and
 that no smaller bound holds there.
 */
module DeadlineRuns {
  import opened Lists
  import opened SectorTree
  import opened Deadline
  import opened DeadlineQueues
  import opened DeadlineBounds

  // ---- composing runs ----

  predicate NoJoin(steps: seq<Step>) {
    forall i :: 0 <= i < |steps| ==> !steps[i].Join?
  }

  ghost predicate Way(t: Tunables, s: State, steps: seq<Step>, s': State, n: nat, quiet: bool)
    requires Inv(t, s)
  {
    && ValidRun(t, s, steps) && RunFrom(t, s, steps) == s' && Calls(steps) == n && NoJoin(steps)
    && (quiet ==> OnlyReads(t, s, steps))
  }

  /** A run of n calls leads from s to s'; `quiet` says that none of them dispatches a write. */
  ghost predicate Leads(t: Tunables, s: State, s': State, n: nat, quiet: bool) {
    Inv(t, s) && exists steps :: Way(t, s, steps, s', n, quiet)
  }

  lemma LeadsNowhere(t: Tunables, s: State, quiet: bool)
    requires Inv(t, s)
    ensures Leads(t, s, s, 0, quiet)
  {
    assert Way(t, s, [], s, 0, quiet);
  }

  lemma LeadsOne(t: Tunables, s: State, step: Step, quiet: bool)
    requires Inv(t, s) && Enabled(s, step) && !step.Join?
    requires quiet && step.DispatchOne? && NoBug(s) && s.writeSide.fifo != [] ==> !Of(s.rqs, Chosen(t, s).id).write
    ensures NoBug(s) && Inv(t, Apply(t, s, step))
    ensures Leads(t, s, Apply(t, s, step), if step.DispatchOne? then 1 else 0, quiet)
  {
    StepKeeps(t, s, step);
    hide Inv, Enabled, NoBug, Apply, Chosen;
    var s', steps := Apply(t, s, step), [step];
    assert steps[1..] == [];
    assert ValidRun(t, s', []) && RunFrom(t, s', []) == s' && OnlyReads(t, s', []) && Calls([]) == 0;
    assert ValidRun(t, s, steps) && RunFrom(t, s, steps) == s';
    assert Calls(steps) == if step.DispatchOne? then 1 else 0;
    assert quiet ==> OnlyReads(t, s, steps);
    assert Way(t, s, steps, s', if step.DispatchOne? then 1 else 0, quiet);
  }

  lemma {:induction false} OnlyMore(t: Tunables, s: State, a: seq<Step>, b: seq<Step>)
    requires Inv(t, s) && ValidRun(t, s, a) && ValidRun(t, RunFrom(t, s, a), b) && ValidRun(t, s, a + b)
    requires OnlyReads(t, s, a) && OnlyReads(t, RunFrom(t, s, a), b)
    ensures OnlyReads(t, s, a + b)
    decreases |a|
  {
    hide Inv, Enabled, NoBug, Apply, Chosen;
    if a == [] {
      assert a + b == b;
    } else {
      StepKeeps(t, s, a[0]);
      assert (a + b)[1..] == a[1..] + b;
      OnlyMore(t, Apply(t, s, a[0]), a[1..], b);
    }
  }

  lemma LeadsOn(t: Tunables, s: State, s1: State, s2: State, n: nat, m: nat, quiet: bool)
    requires Leads(t, s, s1, n, quiet) && Leads(t, s1, s2, m, quiet)
    ensures Leads(t, s, s2, n + m, quiet)
  {
    hide Inv, ValidRun, RunFrom, OnlyReads, Calls;
    var a :| Way(t, s, a, s1, n, quiet);
    var b :| Way(t, s1, b, s2, m, quiet);
    RunMore(t, s, a, b);
    if quiet { OnlyMore(t, s, a, b); }
    assert Way(t, s, a + b, s2, n + m, quiet);
  }

  lemma LeadsAny(t: Tunables, s: State, s': State, n: nat, quiet: bool)
    requires Leads(t, s, s', n, quiet)
    ensures Leads(t, s, s', n, false) && Inv(t, s')
  {
    var a :| Way(t, s, a, s', n, quiet);
    assert Way(t, s, a, s', n, false);
  }

  ghost predicate ComesFrom(t: Tunables, now: int, steps: seq<Step>, s: State) {
    Inv(t, Start(now)) && ValidRun(t, Start(now), steps) && RunFrom(t, Start(now), steps) == s
  }

  /** States of a scheduler that started empty. */
  ghost predicate Reached(t: Tunables, s: State) {
    exists now: int, steps: seq<Step> :: ComesFrom(t, now, steps, s)
  }

  lemma ReachedMore(t: Tunables, s: State, s': State, n: nat)
    requires Reached(t, s) && Leads(t, s, s', n, false)
    ensures Reached(t, s')
  {
    hide Inv, ValidRun, RunFrom;
    var now, a :| ComesFrom(t, now, a, s);
    var b :| Way(t, s, b, s', n, false);
    RunMore(t, Start(now), a, b);
    assert ComesFrom(t, now, a + b, s');
  }

  // ---- one direction going on by itself ----

  predicate Fresh(s: State, id: Id) {
    (forall x :: x in s.rqs ==> x < id) && (forall x :: x in s.issued ==> x < id)
  }

  predicate NotDue(s: State, w: bool) {
    forall x :: x in Get(s, w).fifo ==> s.now <= Of(s.rqs, x).expire
  }

  /** Request r, the last of its tree, is the next to go on with. */
  ghost predicate Running(t: Tunables, s: State, w: bool, pre: seq<Id>, r: Id) {
    && Inv(t, s) && NotDue(s, w)
    && Get(s, w).tree == pre + [r] && Get(s, w).next == Some(r) && Of(s.rqs, r).len >= 1
  }

  predicate Jump(s: State, r: Id) {
    s.lastSector != Of(s.rqs, r).sector
  }

  predicate Extends(rqs: Requests, rqs': Requests) {
    forall x :: x in rqs ==> x in rqs' && rqs'[x] == rqs[x]
  }

  /** The other direction and the time are as they were. */
  predicate Beside(s: State, s': State, w: bool) {
    Get(s', !w) == Get(s, !w) && s'.now == s.now && Extends(s.rqs, s'.rqs)
  }

  lemma {:induction false} BelowAll(rqs: Requests, tree: seq<Id>, sector: nat)
    requires forall x :: x in tree ==> Of(rqs, x).sector < sector
    ensures Below(rqs, tree, sector) == |tree|
  {
    if tree != [] { BelowAll(rqs, tree[1..], sector); }
  }

  lemma {:induction false} LastLargest(rqs: Requests, pre: seq<Id>, r: Id)
    requires Sorted(rqs, pre + [r])
    ensures forall x :: x in pre ==> Of(rqs, x).sector < Of(rqs, r).sector
    ensures r !in pre && Distinct(pre + [r])
    decreases |pre|
  {
    var tree := pre + [r];
    if pre != [] {
      assert tree[1..] == pre[1..] + [r];
      LastLargest(rqs, pre[1..], r);
      assert r in tree[1..];
      assert forall x :: x in pre ==> x == pre[0] || x in pre[1..];
    }
  }

  lemma {:induction false} AfterLast(pre: seq<Id>, r: Id, id: Id)
    requires r !in pre && r != id && id !in pre
    ensures After(pre + [r] + [id], r) == Some(id)
    ensures Without(pre + [r] + [id], r) == pre + [id]
    decreases |pre|
  {
    var tree := pre + [r] + [id];
    if pre == [] {
      assert tree == [r, id] && [r, id][1..] == [id];
      WithoutAbsent([id], r);
      assert pre + [id] == [id];
    } else {
      assert tree[0] == pre[0] && tree[1..] == pre[1..] + [r] + [id];
      AfterLast(pre[1..], r, id);
      assert [pre[0]] + (pre[1..] + [id]) == pre + [id];
    }
  }

  /** A request came, beyond all others of its direction. */
  predicate Came(t: Tunables, s: State, s': State, w: bool, id: Id, sector: nat) {
    && Get(s', w) == Side(Get(s, w).tree + [id], Get(s, w).fifo + [id], Get(s, w).next) && Get(s', !w) == Get(s, !w)
    && s'.rqs == s.rqs[id := Request(w, sector, 1, s.now + Expiry(t, w))]
    && s'.now == s.now && s'.issued == s.issued && s'.lastSector == s.lastSector
    && s'.batching == s.batching && s'.starved == s.starved
  }

  lemma Appended(t: Tunables, s: State, w: bool, id: Id, sector: nat) returns (s': State)
    requires Inv(t, s) && Fresh(s, id)
    requires forall x :: x in Get(s, w).tree ==> Of(s.rqs, x).sector < sector
    ensures Inv(t, s') && Leads(t, s, s', 0, true) && Fresh(s', id + 1) && Came(t, s, s', w, id, sector)
  {
    hide Inv, Leads, NoBug, AddRequest, Get, Came;
    TreeKnown(t, s, w, id);
    LeadsOne(t, s, Add(id, w, sector, 1), true);
    AppendIs(t, s, w, id, sector);
    s' := AddRequest(t, s, id, w, sector, 1);
    StillFresh(t, s, s', w, id, sector);
  }

  lemma StillFresh(t: Tunables, s: State, s': State, w: bool, id: Id, sector: nat)
    requires Fresh(s, id) && Came(t, s, s', w, id, sector)
    ensures Fresh(s', id + 1) && id !in s.rqs
  {
    hide Get;
  }

  lemma AppendTree(rqs: Requests, tree: seq<Id>, id: Id)
    requires forall x :: x in tree ==> Of(rqs, x).sector < Of(rqs, id).sector
    ensures AliasOf(rqs, tree, Of(rqs, id).sector) == None && Insert(rqs, tree, id) == tree + [id]
  {
    BelowAll(rqs, tree, Of(rqs, id).sector);
    assert tree[..|tree|] + [id] + tree[|tree|..] == tree + [id];
  }

  lemma AppendIs(t: Tunables, s: State, w: bool, id: Id, sector: nat)
    requires forall x :: x in Get(s, w).tree ==> x < id && Of(s.rqs, x).sector < sector
    ensures Came(t, s, AddRequest(t, s, id, w, sector, 1), w, id, sector)
  {
    AppendTree(Registered(t, s, id, w, sector, 1).rqs, Get(s, w).tree, id);
    hide AliasOf, Insert;
  }

  lemma TreeKnown(t: Tunables, s: State, w: bool, id: Id)
    requires Inv(t, s) && Fresh(s, id)
    ensures forall x :: x in Get(s, w).tree ==> x in s.rqs && x < id
    ensures forall x :: x in Get(s, w).fifo ==> x in s.rqs && x < id
  {
    Apart(t, s, w);
  }

  /** A call may go on with direction w: within a batch, or because it is chosen. */
  predicate MayGo(t: Tunables, s: State, w: bool) {
    || Charged(t, s) < t.fifoBatch
    || (if w then s.readSide.fifo == [] || s.starved >= t.writesStarved
        else s.writeSide.fifo == [] || s.starved < t.writesStarved)
  }

  function StarvedAfter(t: Tunables, s: State, w: bool): (n: nat) {
    if Charged(t, s) < t.fifoBatch then s.starved
    else if w then 0
    else if s.writeSide.fifo != [] then (s.starved + 1) % U32
    else s.starved
  }

  /** The call goes on with the next request. */
  lemma ChosenNext(t: Tunables, s: State, w: bool, r: Id)
    requires Inv(t, s) && NotDue(s, w) && Get(s, w).next == Some(r) && MayGo(t, s, w)
    ensures NoBug(s) && Get(s, w).fifo != [] && Candidate(s) == Some(r) && Of(s.rqs, r).write == w
    ensures Chosen(t, s) == Call(r, (Charged(t, s) + 1) % U32, StarvedAfter(t, s, w))
  {
    NeverBug(t, s);
    Apart(t, s, w);
    assert r in Get(s, w).fifo;
    assert Get(s, w).fifo[0] in Get(s, w).fifo;
    hide Inv;
  }

  /** Request r went, and id is the next. */
  predicate Went(t: Tunables, s: State, s': State, w: bool, pre: seq<Id>, r: Id, id: Id) {
    && Get(s', w) == Side(pre + [id], Without(Get(s, w).fifo, r), Some(id)) && Get(s', !w) == Get(s, !w)
    && s'.rqs == s.rqs && s'.now == s.now && s'.issued == s.issued + [r]
    && s'.lastSector == Of(s.rqs, r).sector + Of(s.rqs, r).len
    && s'.batching == (Charged(t, s) + 1) % U32 && s'.starved == StarvedAfter(t, s, w)
  }

  lemma MoveNext(t: Tunables, s: State, c: Call, w: bool, pre: seq<Id>, r: Id, id: Id)
    requires Get(s, w).tree == pre + [r] + [id] && r !in pre && id !in pre && r != id && Of(s.rqs, r).write == w
    requires Get(s, !w).next == None && c == Call(r, (Charged(t, s) + 1) % U32, StarvedAfter(t, s, w))
    ensures Went(t, s, MoveRequest(Ready(s, c), r), w, pre, r, id)
  {
    AfterLast(pre, r, id);
    hide Charged, StarvedAfter, After, Without;
  }

  lemma GoesNext(t: Tunables, s: State, w: bool, pre: seq<Id>, r: Id, id: Id) returns (s': State)
    requires Inv(t, s) && NotDue(s, w) && MayGo(t, s, w)
    requires Get(s, w).tree == pre + [r] + [id] && Get(s, w).next == Some(r) && Get(s, !w).next == None
    requires r !in pre && id !in pre && r != id
    ensures Leads(t, s, s', 1, !w) && Inv(t, s') && Went(t, s, s', w, pre, r, id)
  {
    hide Inv, Leads, NotDue, MayGo, Dispatch, Chosen, NoBug, Charged, StarvedAfter, Get, Went, MoveRequest, Ready;
    ChosenNext(t, s, w, r);
    LeadsOne(t, s, DispatchOne, !w);
    SomeFifo(s, w);
    DispatchIs(t, s);
    MoveNext(t, s, Chosen(t, s), w, pre, r, id);
    s' := Dispatch(t, s);
  }

  lemma SomeFifo(s: State, w: bool)
    requires Get(s, w).fifo != []
    ensures s.readSide.fifo != [] || s.writeSide.fifo != []
  {
  }

  /** One more request comes, and the next one goes. */
  lemma Round(t: Tunables, s: State, w: bool, pre: seq<Id>, r: Id, id: Id, gap: bool) returns (s': State)
    requires Running(t, s, w, pre, r) && Fresh(s, id) && MayGo(t, s, w)
    ensures Leads(t, s, s', 1, !w) && Running(t, s', w, pre, id) && Fresh(s', id + 1) && Beside(s, s', w)
    ensures Jump(s', id) == gap
    ensures s'.batching == (Charged(t, s) + 1) % U32 && s'.starved == StarvedAfter(t, s, w)
  {
    hide Inv, Leads, MayGo, Charged, StarvedAfter, NotDue, Get;
    var sector := Of(s.rqs, r).sector + Of(s.rqs, r).len + (if gap then 1 else 0);
    RunningTree(t, s, w, pre, r, id);
    var s1 := Appended(t, s, w, id, sector);
    SameCandidate(t, s, s1, w, pre, r, id, sector);
    s' := GoesNext(t, s1, w, pre, r, id);
    LeadsQuiet(t, s, s1, 0, !w);
    LeadsOn(t, s, s1, s', 0, 1, !w);
    StillNotDue(s, s', w, r, id);
  }

  lemma LeadsQuiet(t: Tunables, s: State, s': State, n: nat, quiet: bool)
    requires Leads(t, s, s', n, true)
    ensures Leads(t, s, s', n, quiet)
  {
    if !quiet { LeadsAny(t, s, s', n, true); }
  }

  lemma RunningTree(t: Tunables, s: State, w: bool, pre: seq<Id>, r: Id, id: Id)
    requires Running(t, s, w, pre, r) && Fresh(s, id)
    ensures r !in pre && id !in pre && r != id && r in s.rqs && Get(s, !w).next == None
    ensures forall x :: x in Get(s, w).tree ==> x in s.rqs && Of(s.rqs, x).sector <= Of(s.rqs, r).sector
    ensures forall x :: x in Get(s, w).fifo ==> x in s.rqs && x != id
  {
    Apart(t, s, w);
    LastLargest(s.rqs, pre, r);
    TreeKnown(t, s, w, id);
    assert r in Get(s, w).tree;
    assert forall x :: x in pre ==> x in Get(s, w).tree;
  }

  lemma SameCandidate(t: Tunables, s: State, s1: State, w: bool, pre: seq<Id>, r: Id, id: Id, sector: nat)
    requires Running(t, s, w, pre, r) && r in s.rqs && r != id && Inv(t, s1) && MayGo(t, s, w)
    requires forall x :: x in Get(s, w).fifo ==> x in s.rqs && x != id
    requires id !in s.rqs && Came(t, s, s1, w, id, sector)
    ensures Charged(t, s1) == Charged(t, s) && MayGo(t, s1, w) && NotDue(s1, w)
    ensures Get(s1, w).next == Some(r) && StarvedAfter(t, s1, w) == StarvedAfter(t, s, w)
  {
    Apart(t, s, w);
    hide Inv;
    SideNonEmpty(s.rqs, Get(s, w), w, s.now + Expiry(t, w), r);
    hide SideInv;
    SameCharge(t, s, s1, w, r, id, sector);
    hide Charged;
    forall x | x in Get(s1, w).fifo ensures s1.now <= Of(s1.rqs, x).expire {
      if x != id { assert x in Get(s, w).fifo; }
    }
    hide NotDue;
  }

  lemma SameCharge(t: Tunables, s: State, s1: State, w: bool, r: Id, id: Id, sector: nat)
    requires Came(t, s, s1, w, id, sector) && Get(s, w).next == Some(r) && r in s.rqs && r != id
    requires !(s.readSide.next.Some? && s.writeSide.next.Some?)
    ensures Charged(t, s1) == Charged(t, s)
  {
    assert Candidate(s1) == Candidate(s) == Some(r);
    assert Of(s1.rqs, r) == Of(s.rqs, r);
  }

  lemma SideNonEmpty(rqs: Requests, side: Side, w: bool, h: int, r: Id)
    requires SideInv(rqs, side, w, h, None) && side.next == Some(r)
    ensures side.fifo != []
  {
    assert r in side.fifo;
  }

  lemma StillNotDue(s: State, s': State, w: bool, r: Id, id: Id)
    requires NotDue(s, w) && s'.now == s.now && Extends(s.rqs, s'.rqs) && Of(s'.rqs, id).expire >= s.now
    requires forall x :: x in Get(s, w).fifo ==> x in s.rqs
    requires Get(s', w).fifo == Without(Get(s, w).fifo + [id], r)
    ensures NotDue(s', w)
  {
    WithoutAll(Get(s, w).fifo + [id], r);
  }

  lemma ChargedIs(t: Tunables, s: State, w: bool, pre: seq<Id>, r: Id)
    requires Running(t, s, w, pre, r)
    ensures Charged(t, s) == if Jump(s, r) then (s.batching + t.fifoBatch) % U32 else s.batching
    ensures s.batching < U32 && s.starved < U32
  {
    Apart(t, s, w);
    Counters(t, s);
    hide Inv, SideInv;
    assert Candidate(s) == Some(r);
  }

  /** Where a run of one direction stands. */
  ghost predicate At(t: Tunables, s: State, w: bool, pre: seq<Id>, r: Id, id: Id, b: nat, starved: nat, jump: bool) {
    && Running(t, s, w, pre, r) && Fresh(s, id)
    && s.batching == b && s.starved == starved && Jump(s, r) == jump
  }

  /** A run of n calls of one direction only. */
  ghost predicate Ran(t: Tunables, s: State, s': State, w: bool, n: nat) {
    Leads(t, s, s', n, !w) && Beside(s, s', w)
  }

  lemma RanOn(t: Tunables, s: State, s1: State, s2: State, w: bool, n: nat, m: nat)
    requires Ran(t, s, s1, w, n) && Ran(t, s1, s2, w, m)
    ensures Ran(t, s, s2, w, n + m)
  {
    hide Leads, Get;
    LeadsOn(t, s, s1, s2, n, m, !w);
  }

  lemma RanNowhere(t: Tunables, s: State, w: bool)
    requires Inv(t, s)
    ensures Ran(t, s, s, w, 0)
  {
    hide Inv, Leads;
    LeadsNowhere(t, s, !w);
  }

  /** One round, with what it finds and leaves. */
  lemma Next(t: Tunables, s: State, w: bool, pre: seq<Id>, r: Id, id: Id, b: nat, st: nat, jump: bool, gap: bool)
    returns (s': State)
    requires At(t, s, w, pre, r, id, b, st, jump) && MayGo(t, s, w)
    ensures var c := if jump then (b + t.fifoBatch) % U32 else b;
            && Ran(t, s, s', w, 1) && Charged(t, s) == c
            && At(t, s', w, pre, id, id + 1, (c + 1) % U32, StarvedAfter(t, s, w), gap)
  {
    hide Running, Leads, Charged, StarvedAfter, Get, MayGo;
    ChargedIs(t, s, w, pre, r);
    s' := Round(t, s, w, pre, r, id, gap);
  }

  /** Within a batch. */
  lemma Within(t: Tunables, s: State, w: bool, pre: seq<Id>, r: Id, id: Id, b: nat, st: nat, jump: bool, gap: bool)
    returns (s': State)
    requires At(t, s, w, pre, r, id, b, st, jump)
    requires (if jump then (b + t.fifoBatch) % U32 else b) < t.fifoBatch < U32
    ensures var c := if jump then (b + t.fifoBatch) % U32 else b;
            Ran(t, s, s', w, 1) && At(t, s', w, pre, id, id + 1, c + 1, st, gap)
  {
    hide Running, Leads, Get, Charged;
    ChargedIs(t, s, w, pre, r);
    s' := Next(t, s, w, pre, r, id, b, st, jump, gap);
  }

  lemma {:induction false} Batched(t: Tunables, s: State, w: bool, pre: seq<Id>, r: Id, id: Id, b: nat, st: nat,
                                   n: nat, gap: bool)
    returns (s': State)
    requires At(t, s, w, pre, r, id, b, st, false) && 1 <= n && b + n <= t.fifoBatch < U32
    ensures Ran(t, s, s', w, n) && At(t, s', w, pre, id + n - 1, id + n, b + n, st, gap)
    decreases n
  {
    hide At, Ran;
    var s1 := Within(t, s, w, pre, r, id, b, st, false, if n == 1 then gap else false);
    if n == 1 {
      s' := s1;
    } else {
      s' := Batched(t, s1, w, pre, id, id + 1, b + 1, st, n - 1, gap);
      RanOn(t, s, s1, s', w, 1, n - 1);
    }
  }

  // ---- batches of a third of the range of the counter ----

  /** The counter wraps around to 0, and a whole batch goes. */
  lemma WholeBatch(t: Tunables, s: State, w: bool, pre: seq<Id>, r: Id, id: Id, st: nat) returns (s': State)
    requires 3 * t.fifoBatch + 1 == U32 && At(t, s, w, pre, r, id, 2 * t.fifoBatch + 1, st, true)
    ensures Ran(t, s, s', w, t.fifoBatch)
    ensures At(t, s', w, pre, id + t.fifoBatch - 1, id + t.fifoBatch, t.fifoBatch, st, true)
  {
    hide At, Ran;
    var s1 := Within(t, s, w, pre, r, id, 2 * t.fifoBatch + 1, st, true, false);
    s' := Batched(t, s1, w, pre, id, id + 1, 1, st, t.fifoBatch - 1, true);
    RanOn(t, s, s1, s', w, 1, t.fifoBatch - 1);
  }

  lemma AtInv(t: Tunables, s: State, w: bool, pre: seq<Id>, r: Id, id: Id, b: nat, st: nat, jump: bool)
    requires At(t, s, w, pre, r, id, b, st, jump)
    ensures Inv(t, s) && b < U32 && st < U32
  {
    Counters(t, s);
    hide Inv;
  }

  lemma SameWrites(t: Tunables, s: State, s': State, n: nat)
    requires Ran(t, s, s', false, n)
    ensures s'.writeSide == s.writeSide
  {
  }

  /** A jump ends the batch, and a read is chosen. */
  lemma Chooses(t: Tunables, s: State, r: Id, id: Id, b: nat, st: nat) returns (s': State)
    requires At(t, s, false, [], r, id, b, st, true) && b + t.fifoBatch + 1 < U32
    requires s.writeSide.fifo != [] ==> st < t.writesStarved < U32
    ensures Ran(t, s, s', false, 1) && s'.writeSide == s.writeSide
    ensures At(t, s', false, [], id, id + 1, b + t.fifoBatch + 1, if s.writeSide.fifo == [] then st else st + 1, true)
  {
    hide Running, Leads, Charged, Get;
    ChargedIs(t, s, false, [], r);
    assert MayGo(t, s, false);
    s' := Next(t, s, false, [], r, id, b, st, true, true);
    SameWrites(t, s, s', 1);
  }

  /** A read is chosen, and a whole batch follows it. */
  lemma OneMore(t: Tunables, s: State, r: Id, id: Id, st: nat) returns (s': State)
    requires 3 * t.fifoBatch + 1 == U32 && st < t.writesStarved < U32 && s.writeSide.fifo != []
    requires At(t, s, false, [], r, id, t.fifoBatch, st, true)
    ensures Ran(t, s, s', false, t.fifoBatch + 1) && s'.writeSide == s.writeSide
    ensures At(t, s', false, [], id + t.fifoBatch, id + t.fifoBatch + 1, t.fifoBatch, st + 1, true)
  {
    hide At, Ran;
    var s1 := Chooses(t, s, r, id, t.fifoBatch, st);
    s' := WholeBatch(t, s1, false, [], id, id + 1, st + 1);
    RanOn(t, s, s1, s', false, 1, t.fifoBatch);
    SameWrites(t, s, s', t.fifoBatch + 1);
  }

  lemma {:induction false} ManyMore(t: Tunables, s: State, r: Id, id: Id, st: nat, k: nat)
    returns (s': State, r': Id, id': Id)
    requires 3 * t.fifoBatch + 1 == U32 && st + k <= t.writesStarved < U32 && s.writeSide.fifo != []
    requires At(t, s, false, [], r, id, t.fifoBatch, st, true)
    ensures Ran(t, s, s', false, k * (t.fifoBatch + 1)) && s'.writeSide == s.writeSide
    ensures At(t, s', false, [], r', id', t.fifoBatch, st + k, true)
    decreases k
  {
    hide At, Ran, Inv;
    if k == 0 {
      AtInv(t, s, false, [], r, id, t.fifoBatch, st, true);
      RanNowhere(t, s, false);
      s', r', id' := s, r, id;
    } else {
      var s1 := OneMore(t, s, r, id, st);
      s', r', id' := ManyMore(t, s1, id + t.fifoBatch, id + t.fifoBatch + 1, st + 1, k - 1);
      RanOn(t, s, s1, s', false, t.fifoBatch + 1, (k - 1) * (t.fifoBatch + 1));
      assert t.fifoBatch + 1 + (k - 1) * (t.fifoBatch + 1) == k * (t.fifoBatch + 1);
    }
  }

  // ---- batches of one ----

  lemma {:induction false} Jumps(t: Tunables, s: State, r: Id, id: Id, b: nat, st: nat, k: nat)
    returns (s': State, r': Id)
    requires t.fifoBatch == 1 && At(t, s, false, [], r, id, b, st, true) && b + 2 * k < U32
    requires s.writeSide.fifo != [] ==> st + k <= t.writesStarved < U32
    ensures Ran(t, s, s', false, k) && s'.writeSide == s.writeSide
    ensures At(t, s', false, [], r', id + k, b + 2 * k, if s.writeSide.fifo == [] then st else st + k, true)
    decreases k
  {
    hide At, Ran, Inv;
    if k == 0 {
      AtInv(t, s, false, [], r, id, b, st, true);
      RanNowhere(t, s, false);
      s', r' := s, r;
    } else {
      var s1 := Chooses(t, s, r, id, b, st);
      s', r' := Jumps(t, s1, id, id + 1, b + 2, if s.writeSide.fifo == [] then st else st + 1, k - 1);
      RanOn(t, s, s1, s', false, 1, k - 1);
    }
  }

  /** The counter wraps around into a batch of one read, and k reads are chosen. */
  lemma Around(t: Tunables, s: State, r: Id, id: Id, st: nat, k: nat) returns (s': State, r': Id)
    requires t.fifoBatch == 1 && At(t, s, false, [], r, id, U32 - 1, st, true) && k <= INT_MAX
    requires s.writeSide.fifo != [] && st + k <= t.writesStarved < U32
    ensures Ran(t, s, s', false, k + 1) && s'.writeSide == s.writeSide
    ensures At(t, s', false, [], r', id + 1 + k, 1 + 2 * k, st + k, true)
  {
    hide At, Ran;
    var s1 := Within(t, s, false, [], r, id, U32 - 1, st, true, true);
    SameWrites(t, s, s1, 1);
    s', r' := Jumps(t, s1, id, id + 1, 1, st, k);
    RanOn(t, s, s1, s', false, 1, k);
  }

  lemma {:induction false} ManyAround(t: Tunables, s: State, r: Id, id: Id, st: nat, k: nat)
    returns (s': State, r': Id, id': Id)
    requires t.fifoBatch == 1 && At(t, s, false, [], r, id, U32 - 1, st, true)
    requires s.writeSide.fifo != [] && st + k * INT_MAX <= t.writesStarved < U32
    ensures Ran(t, s, s', false, k * (INT_MAX + 1)) && s'.writeSide == s.writeSide
    ensures At(t, s', false, [], r', id', U32 - 1, st + k * INT_MAX, true)
    decreases k
  {
    hide At, Ran, Inv;
    if k == 0 {
      AtInv(t, s, false, [], r, id, U32 - 1, st, true);
      RanNowhere(t, s, false);
      s', r', id' := s, r, id;
    } else {
      assert k * INT_MAX == INT_MAX + (k - 1) * INT_MAX;
      var s1, r1 := Around(t, s, r, id, st, INT_MAX);
      s', r', id' := ManyAround(t, s1, r1, id + 1 + INT_MAX, st + INT_MAX, k - 1);
      RanOn(t, s, s1, s', false, INT_MAX + 1, (k - 1) * (INT_MAX + 1));
    }
  }

  // ---- from the empty scheduler ----

  lemma StartFresh(t: Tunables, now: int)
    ensures Inv(t, Start(now)) && Fresh(Start(now), 0)
  {
  }

  /** Two reads wait, and none has been dispatched yet. */
  predicate Two(t: Tunables, s: State, gap: bool) {
    && s.readSide == Side([0, 1], [0, 1], None) && s.writeSide == Side([], [], None)
    && s.rqs == map[0 := Request(false, 0, 1, s.now + t.readExpire),
                    1 := Request(false, if gap then 2 else 1, 1, s.now + t.readExpire)]
    && s.batching == 0 && s.starved == 0 && s.issued == []
  }

  lemma BeginTwo(t: Tunables, now: int, gap: bool) returns (s: State)
    ensures Leads(t, Start(now), s, 0, false) && Inv(t, s) && Two(t, s, gap)
  {
    hide Inv, Leads;
    var s0 := Start(now);
    StartFresh(t, now);
    var s1 := Appended(t, s0, false, 0, 0);
    s := Appended(t, s1, false, 1, if gap then 2 else 1);
    LeadsOn(t, s0, s1, s, 0, 0, true);
    LeadsAny(t, s0, s, 0, true);
  }

  lemma FirstGoes(t: Tunables, s: State, gap: bool)
    requires Inv(t, s) && Two(t, s, gap)
    ensures NoBug(s)
    ensures var s' := Dispatch(t, s);
            && s'.readSide == Side([1], [1], Some(1)) && s'.writeSide == s.writeSide && s'.rqs == s.rqs
            && s'.batching == 1 && s'.starved == 0 && s'.issued == [0] && s'.lastSector == 1 && s'.now == s.now
  {
    NeverBug(t, s);
    hide Inv;
    assert [0, 1][1..] == [1] && [1][1..] == [];
    assert Without([0, 1], 0) == [1] by { WithoutAbsent([1], 0); }
    assert After([0, 1], 0) == Some(1);
    DispatchIs(t, s);
    assert Chosen(t, s) == Call(0, 1, 0);
    hide Without, After;
  }

  lemma Begin(t: Tunables, now: int, gap: bool) returns (s: State)
    ensures Leads(t, Start(now), s, 1, false) && s.writeSide == Side([], [], None)
    ensures At(t, s, false, [], 1, 2, 1, 0, gap) && s.readSide.fifo == [1]
  {
    hide Inv, Leads, Dispatch, NoBug;
    var s1 := BeginTwo(t, now, gap);
    FirstGoes(t, s1, gap);
    LeadsOne(t, s1, DispatchOne, false);
    s := Dispatch(t, s1);
    LeadsOn(t, Start(now), s1, s, 0, 1, false);
  }

  /** A write comes while reads go on. */
  lemma WriteComes(t: Tunables, s: State, r: Id, id: Id, b: nat, st: nat, jump: bool) returns (s': State)
    requires At(t, s, false, [], r, id, b, st, jump) && s.writeSide == Side([], [], None)
    ensures Leads(t, s, s', 0, true) && s'.writeSide == Side([id], [id], None) && s'.readSide == s.readSide
    ensures At(t, s', false, [], r, id + 1, b, st, jump) && id in s'.rqs && s'.rqs[id].sector == 0
  {
    hide Inv, Leads, Running, Get;
    AtInv(t, s, false, [], r, id, b, st, jump);
    assert Get(s, true) == s.writeSide && Get(s, false) == s.readSide by { GetIs(s); }
    s' := Appended(t, s, true, id, 0);
    assert Get(s', true) == s'.writeSide && Get(s', false) == s'.readSide by { GetIs(s'); }
    assert [] + [id] == [id];
    RunningTree(t, s, false, [], r, id);
    Undisturbed(t, s, s', false, [], r, id);
  }

  lemma GetIs(s: State)
    ensures Get(s, true) == s.writeSide && Get(s, false) == s.readSide
  {
  }

  lemma Undisturbed(t: Tunables, s: State, s': State, w: bool, pre: seq<Id>, r: Id, id: Id)
    requires Running(t, s, w, pre, r) && Fresh(s, id) && Inv(t, s') && Get(s', w) == Get(s, w)
    requires s'.now == s.now && Extends(s.rqs, s'.rqs) && s'.lastSector == s.lastSector
    ensures Running(t, s', w, pre, r) && Jump(s', r) == Jump(s, r)
  {
    RunningTree(t, s, w, pre, r, id);
    hide Inv, Get;
  }

  /** None of the calls of this run, from a state the scheduler can be in, dispatches a write,
      though x waits. */
  ghost predicate Starves(t: Tunables, s: State, steps: seq<Step>, x: Id) {
    && Reached(t, s) && Inv(t, s) && ValidRun(t, s, steps) && OnlyReads(t, s, steps)
    && x in s.writeSide.fifo && x in RunFrom(t, s, steps).writeSide.fifo
  }

  lemma LeadsStarves(t: Tunables, s: State, s': State, x: Id, n: nat) returns (steps: seq<Step>)
    requires Reached(t, s) && Leads(t, s, s', n, true) && x in s.writeSide.fifo && x in s'.writeSide.fifo
    ensures Starves(t, s, steps, x) && Calls(steps) == n
  {
    hide Inv, ValidRun, RunFrom, OnlyReads, Reached;
    steps :| Way(t, s, steps, s', n, true);
  }

  lemma ReachedBy(t: Tunables, now: int, s: State, s': State, n: nat, m: nat)
    requires Leads(t, Start(now), s, n, false) && Leads(t, s, s', m, true)
    ensures Reached(t, s')
  {
    hide Leads, Reached;
    ReachedStart(t, now);
    LeadsAny(t, s, s', m, true);
    LeadsOn(t, Start(now), s, s', n, m, false);
    ReachedMore(t, Start(now), s', n + m);
  }

  lemma ReachedStart(t: Tunables, now: int)
    ensures Reached(t, Start(now))
  {
    StartFresh(t, now);
    assert ComesFrom(t, now, [], Start(now));
  }

  lemma ThirdsStarve(t: Tunables) returns (s: State, steps: seq<Step>, x: Id)
    requires 3 * t.fifoBatch + 1 == U32 && t.writesStarved < U32
    ensures Starves(t, s, steps, x) && Calls(steps) == t.fifoBatch + t.writesStarved * (t.fifoBatch + 1)
  {
    hide At, Leads, Reached, Starves;
    var n := t.fifoBatch;
    var s0 := Begin(t, 0, false);
    var s1 := Batched(t, s0, false, [], 1, 2, 1, 0, n - 1, true);
    SameWrites(t, s0, s1, n - 1);
    var s2 := Chooses(t, s1, 2 + n - 1 - 1, 2 + n - 1, n, 0);
    s := WriteComes(t, s2, 2 + n - 1, 2 + n, 2 * n + 1, 0, true);
    x := 2 + n;
    LeadsOn(t, s0, s1, s2, n - 1, 1, true);
    LeadsOn(t, s0, s2, s, n, 0, true);
    ReachedBy(t, 0, s0, s, 1, n);
    var s3 := WholeBatch(t, s, false, [], 2 + n - 1, 3 + n, 0);
    SameWrites(t, s, s3, n);
    var s4, r4, id4 := ManyMore(t, s3, 3 + n + n - 1, 3 + n + n, 0, t.writesStarved);
    LeadsOn(t, s, s3, s4, n, t.writesStarved * (n + 1), true);
    steps := LeadsStarves(t, s, s4, x, n + t.writesStarved * (n + 1));
  }

  lemma OnesStarve(t: Tunables) returns (s: State, steps: seq<Step>, x: Id)
    requires t.fifoBatch == 1 && t.writesStarved < U32
    ensures Starves(t, s, steps, x) && Calls(steps) == t.writesStarved + 1 + t.writesStarved / INT_MAX
  {
    hide At, Leads, Reached, Starves;
    var ws, k := t.writesStarved, t.writesStarved / INT_MAX;
    var s0 := Begin(t, 0, true);
    var s1, r1 := Jumps(t, s0, 1, 2, 1, 0, INT_MAX);
    s := WriteComes(t, s1, r1, 2 + INT_MAX, U32 - 1, 0, true);
    x := 2 + INT_MAX;
    LeadsOn(t, s0, s1, s, INT_MAX, 0, true);
    ReachedBy(t, 0, s0, s, 1, INT_MAX);
    var s2, r2, id2 := ManyAround(t, s, r1, 3 + INT_MAX, 0, k);
    var s3, r3 := Around(t, s2, r2, id2, k * INT_MAX, ws - k * INT_MAX);
    LeadsOn(t, s, s2, s3, k * (INT_MAX + 1), ws - k * INT_MAX + 1, true);
    steps := LeadsStarves(t, s, s3, x, ws + 1 + k);
  }

  /** In every run of a scheduler that started empty the plain promise to a write is kept. */
  ghost predicate PlainWrites(t: Tunables) {
    forall s: State, steps: seq<Step>, x: Id ::
      Starves(t, s, steps, x) ==> Calls(steps) <= (t.writesStarved + 1) * Batch(t)
  }

  /** The bound is reached where it is not the plain one. */
  lemma ExtraReached(t: Tunables) returns (s: State, steps: seq<Step>, x: Id)
    requires t.fifoBatch <= INT_MAX && t.writesStarved < U32 && Extra(t) > 0
    ensures Starves(t, s, steps, x) && Calls(steps) == (t.writesStarved + 1) * Batch(t) + Extra(t)
  {
    hide Starves;
    if 3 * t.fifoBatch + 1 == U32 {
      s, steps, x := ThirdsStarve(t);
      var n, ws := t.fifoBatch, t.writesStarved;
      assert n + ws * (n + 1) == (ws + 1) * n + ws;
    } else {
      s, steps, x := OnesStarve(t);
    }
  }

  /** Reads hold up a write for no more than writes_starved + 1 batches exactly when the batch
      is not a third of the range of the counter, unless writes_starved is 0, nor one with
      writes_starved at INT_MAX or beyond. */
  lemma WritesExactlyWhen(t: Tunables)
    requires t.fifoBatch <= INT_MAX && t.writesStarved < U32
    ensures PlainWrites(t) <==>
            (!(3 * t.fifoBatch + 1 == U32 && t.writesStarved >= 1) &&
             !(t.fifoBatch == 1 && t.writesStarved >= INT_MAX))
  {
    hide Batch, Inv, ValidRun, RunFrom, OnlyReads, Reached, Calls;
    if Extra(t) == 0 {
      forall s: State, steps: seq<Step>, x: Id | Starves(t, s, steps, x)
        ensures Calls(steps) <= (t.writesStarved + 1) * Batch(t)
      {
        WriteStarvation(t, s, steps, x);
      }
    } else {
      var s, steps, x := ExtraReached(t);
      assert Starves(t, s, steps, x);
    }
  }

  // ---- a read that waits as long as it can ----

  /** Request r, expired, is at place p of the reads. */
  predicate WaitsAt(s: State, r: Id, p: nat) {
    r in s.readSide.fifo && r in s.rqs && s.now > s.rqs[r].expire && Pos(s.readSide.fifo, r) == p
  }

  lemma WaitsIn(s: State, r: Id, p: nat)
    requires WaitsAt(s, r, p)
    ensures r in s.readSide.fifo
  {
  }

  lemma StillWaits(t: Tunables, s: State, s': State, n: nat, r: Id, p: nat)
    requires Ran(t, s, s', true, n) && WaitsAt(s, r, p)
    ensures WaitsAt(s', r, p)
  {
  }

  /** A write that starts where u does has come, so that u was dispatched and the one after it
      is the next. */
  predicate Replaced(t: Tunables, s: State, s': State, u: Id, rest: seq<Id>, id: Id) {
    && s'.writeSide == Side([id] + rest, Without(s.writeSide.fifo, u) + [id],
                            if rest == [] then None else Some(rest[0]))
    && s'.readSide == s.readSide.(next := None)
    && s'.rqs == s.rqs[id := Request(true, Of(s.rqs, u).sector, 1, s.now + t.writeExpire)]
    && s'.now == s.now && s'.batching == s.batching && s'.starved == s.starved && s'.issued == s.issued + [u]
    && s'.lastSector == Of(s.rqs, u).sector + Of(s.rqs, u).len
  }

  lemma FirstAlias(rqs: Requests, u: Id, rest: seq<Id>, id: Id)
    requires Of(rqs, id).sector == Of(rqs, u).sector && u !in rest
    requires forall x :: x in rest ==> Of(rqs, u).sector < Of(rqs, x).sector
    ensures AliasOf(rqs, [u] + rest, Of(rqs, id).sector) == Some(u)
    ensures Without([u] + rest, u) == rest && After([u] + rest, u) == if rest == [] then None else Some(rest[0])
    ensures Insert(rqs, rest, id) == [id] + rest
  {
    var tree := [u] + rest;
    assert tree[0] == u && tree[1..] == rest;
    WithoutAbsent(rest, u);
    assert rest != [] ==> rest[0] in rest && tree[1] == rest[0];
    assert Below(rqs, rest, Of(rqs, id).sector) == 0;
    assert rest[..0] + [id] + rest[0..] == [id] + rest;
  }

  /** Dispatching u, the first of the writes. */
  lemma MoveFirst(s: State, u: Id, rest: seq<Id>)
    requires s.writeSide.tree == [u] + rest && u !in rest && Of(s.rqs, u).write
    requires Without([u] + rest, u) == rest && After([u] + rest, u) == if rest == [] then None else Some(rest[0])
    ensures MoveRequest(s, u) ==
            s.(writeSide := Side(rest, Without(s.writeSide.fifo, u), if rest == [] then None else Some(rest[0])),
               readSide := s.readSide.(next := None),
               lastSector := Of(s.rqs, u).sector + Of(s.rqs, u).len, issued := s.issued + [u])
  {
    assert rest != [] ==> rest[0] in rest;
    hide Without, After;
  }

  /** And putting id in its place. */
  lemma AliasAdded(s: State, u: Id, rest: seq<Id>, id: Id)
    requires s.writeSide.tree == [u] + rest && u !in rest && Of(s.rqs, u).write && Of(s.rqs, id).write
    requires Of(s.rqs, id).sector == Of(s.rqs, u).sector
    requires forall x :: x in rest ==> Of(s.rqs, u).sector < Of(s.rqs, x).sector
    ensures AddRqRb(s, id) ==
            s.(writeSide := Side([id] + rest, Without(s.writeSide.fifo, u), if rest == [] then None else Some(rest[0])),
               readSide := s.readSide.(next := None),
               lastSector := Of(s.rqs, u).sector + Of(s.rqs, u).len, issued := s.issued + [u])
  {
    FirstAlias(s.rqs, u, rest, id);
    hide AliasOf, Without, After, Insert, MoveRequest;
    MoveFirst(s, u, rest);
    var s1 := MoveRequest(s, u);
    assert s1.rqs == s.rqs && Get(s1, true) == s1.writeSide;
    assert AddRqRb(s, id) == InsertRb(s1, id);
  }

  lemma ReplaceIs(t: Tunables, s: State, u: Id, rest: seq<Id>, id: Id)
    requires s.writeSide.tree == [u] + rest && u !in rest && id !in s.rqs && u in s.rqs && s.rqs[u].write
    requires forall x :: x in rest ==> x in s.rqs && Of(s.rqs, u).sector < Of(s.rqs, x).sector
    ensures Replaced(t, s, AddRequest(t, s, id, true, Of(s.rqs, u).sector, 1), u, rest, id)
  {
    hide AddRqRb, Without;
    var s1 := Registered(t, s, id, true, Of(s.rqs, u).sector, 1);
    assert Of(s1.rqs, u) == Of(s.rqs, u) && forall x :: x in rest ==> Of(s1.rqs, x) == Of(s.rqs, x);
    AliasAdded(s1, u, rest, id);
  }

  lemma WriteTree(t: Tunables, s: State, u: Id, rest: seq<Id>, id: Id)
    requires Inv(t, s) && Fresh(s, id) && s.writeSide.tree == [u] + rest
    ensures u !in rest && id !in s.rqs && u in s.rqs && s.rqs[u].write && u < id && u in s.writeSide.fifo
    ensures forall x :: x in rest ==> x in s.rqs && Of(s.rqs, u).sector < Of(s.rqs, x).sector
    ensures forall x :: x in s.writeSide.fifo ==> x in s.rqs && x < id
  {
    Apart(t, s, true);
    hide Inv;
    var tree := s.writeSide.tree;
    assert tree[0] == u && tree[1..] == rest;
    assert u in tree && forall x :: x in rest ==> x in tree;
  }

  lemma AliasMoved(t: Tunables, s: State, u: Id, rest: seq<Id>, id: Id) returns (s': State)
    requires Inv(t, s) && Fresh(s, id) && s.writeSide.tree == [u] + rest
    ensures Leads(t, s, s', 0, false) && Inv(t, s') && Fresh(s', id + 1) && Replaced(t, s, s', u, rest, id)
  {
    hide Inv, Leads, AddRequest, NoBug;
    WriteTree(t, s, u, rest, id);
    LeadsOne(t, s, Add(id, true, Of(s.rqs, u).sector, 1), false);
    ReplaceIs(t, s, u, rest, id);
    s' := AddRequest(t, s, id, true, Of(s.rqs, u).sector, 1);
  }

  lemma ReplacedDue(t: Tunables, s: State, s': State, u: Id, rest: seq<Id>, id: Id)
    requires Replaced(t, s, s', u, rest, id) && Fresh(s, id)
    requires forall x :: x in s.writeSide.fifo ==> x in s.rqs && (x == u || s.now <= s.rqs[x].expire)
    ensures NotDue(s', true)
  {
    WithoutAll(s.writeSide.fifo, u);
  }

  /** An expired read is chosen: the first of the fifo goes. */
  predicate ReadWent(s: State, s': State, r: Id, p: nat) {
    && s'.writeSide == s.writeSide.(next := None) && s'.rqs == s.rqs && s'.now == s.now
    && s'.batching == 1 && s'.starved == 1 && WaitsAt(s', r, p)
  }

  lemma ReadChosen(t: Tunables, s: State, r: Id, p: nat, id: Id)
    requires Inv(t, s) && Fresh(s, id) && WaitsAt(s, r, p) && p >= 1 && s.writeSide.fifo != []
    requires !InBatch(t, s) && s.starved == 0 && t.writesStarved == 1
    ensures NoBug(s) && ReadWent(s, Dispatch(t, s), r, p - 1) && Fresh(Dispatch(t, s), id)
  {
    NeverBug(t, s);
    Apart(t, s, false);
    TreeKnown(t, s, false, id);
    HeadSoonest(s.rqs, s.readSide.fifo, r);
    var head := s.readSide.fifo[0];
    assert head in s.readSide.fifo && Of(s.rqs, r) == s.rqs[r];
    hide Inv;
    assert Chosen(t, s) == Call(head, 1, 1);
    DispatchIs(t, s);
    PosTail(s.readSide.fifo, r);
    MoveFifos(Ready(s, Chosen(t, s)), head, false);
    hide Distinct, ByExpiry, Sorted, Without, After, Pos;
  }

  lemma BatchOver(t: Tunables, s: State, u: Id, w: Id, id: Id, jump: bool)
    requires At(t, s, true, [u], w, id, t.fifoBatch, 0, jump) && t.fifoBatch <= INT_MAX
    ensures !InBatch(t, s) && s.writeSide.fifo != []
  {
    ChargedIs(t, s, true, [u], w);
    Apart(t, s, true);
    assert w in s.writeSide.fifo;
    hide Inv, SideInv;
  }

  /** The first read goes, and the writes are brought back into the batch. */
  lemma ReadBetween(t: Tunables, s: State, u: Id, w: Id, id: Id, r: Id, p: nat, jump: bool) returns (s': State)
    requires At(t, s, true, [u], w, id, t.fifoBatch, 0, jump) && WaitsAt(s, r, p) && p >= 1
    requires t.writesStarved == 1 && t.fifoBatch <= INT_MAX
    ensures Leads(t, s, s', 1, false) && At(t, s', true, [id], w, id + 1, 1, 1, false) && WaitsAt(s', r, p - 1)
  {
    hide Inv, Leads, InBatch, Dispatch, NoBug, Distinct, Pos;
    BatchOver(t, s, u, w, id, jump);
    ReadChosen(t, s, r, p, id);
    LeadsOne(t, s, DispatchOne, false);
    var s1 := Dispatch(t, s);
    s' := BroughtBack(t, s, s1, u, w, id, r, p - 1);
    LeadsOn(t, s, s1, s', 1, 0, false);
  }

  lemma BroughtBack(t: Tunables, s: State, s1: State, u: Id, w: Id, id: Id, r: Id, p: nat) returns (s': State)
    requires Running(t, s, true, [u], w) && Inv(t, s1) && Fresh(s1, id) && ReadWent(s, s1, r, p)
    ensures Leads(t, s1, s', 0, false) && At(t, s', true, [id], w, id + 1, 1, 1, false) && WaitsAt(s', r, p)
  {
    hide Inv, Leads, Pos, Without;
    assert s1.writeSide.tree == [u] + [w];
    WriteTree(t, s1, u, [w], id);
    NotWrite(t, s1, r, u);
    var len := Of(s1.rqs, w).sector - Of(s1.rqs, u).sector;
    var s2 := Lengthened(t, s1, u, len);
    s' := AliasMoved(t, s2, u, [w], id);
    LeadsOn(t, s1, s2, s', 0, 0, false);
    ReplacedDue(t, s2, s', u, [w], id);
    assert [id] + [w] == s'.writeSide.tree;
  }

  lemma NotWrite(t: Tunables, s: State, r: Id, u: Id)
    requires Inv(t, s) && r in s.readSide.fifo && u in s.rqs && s.rqs[u].write
    ensures r != u
  {
  }

  /** A bio is merged at the back of a request. */
  lemma Lengthened(t: Tunables, s: State, u: Id, len: nat) returns (s': State)
    requires Inv(t, s) && u in s.writeSide.fifo && u in s.rqs && s.rqs[u].write
    ensures Leads(t, s, s', 0, false) && Inv(t, s') && s' == s.(rqs := s.rqs[u := s.rqs[u].(len := len)])
  {
    hide Inv, Leads, NoBug;
    LeadsOne(t, s, GrowBack(u, len), false);
    s' := s.(rqs := s.rqs[u := s.rqs[u].(len := len)]);
  }

  /** A write is chosen: the counter is at 2/3 of its range. */
  lemma WriteChosen(t: Tunables, s: State, u: Id, w: Id, id: Id) returns (s': State)
    requires 3 * t.fifoBatch + 1 == U32 && t.writesStarved == 1
    requires At(t, s, true, [u], w, id, t.fifoBatch, 1, true)
    ensures Ran(t, s, s', true, 1) && At(t, s', true, [u], id, id + 1, 2 * t.fifoBatch + 1, 0, true)
  {
    hide Running, Leads, Get, Charged;
    ChargedIs(t, s, true, [u], w);
    s' := Next(t, s, true, [u], w, id, t.fifoBatch, 1, true, true);
  }

  /** The longest wait for one place. */
  lemma OnePlace(t: Tunables, s: State, u: Id, w: Id, id: Id, r: Id, p: nat) returns (s': State, w': Id, id': Id)
    requires 3 * t.fifoBatch + 1 == U32 && t.writesStarved == 1
    requires At(t, s, true, [u], w, id, t.fifoBatch, 0, true) && WaitsAt(s, r, p) && p >= 1
    ensures Leads(t, s, s', 2 * t.fifoBatch + 1, false)
    ensures At(t, s', true, [id], w', id', t.fifoBatch, 0, true) && WaitsAt(s', r, p - 1)
  {
    hide At, WaitsAt, Leads;
    var n := t.fifoBatch;
    var s1 := ReadBetween(t, s, u, w, id, r, p, true);
    var s2 := Batched(t, s1, true, [id], w, id + 1, 1, 1, n - 1, true);
    StillWaits(t, s1, s2, n - 1, r, p - 1);
    LeadsOn(t, s, s1, s2, 1, n - 1, false);
    s', w', id' := WritesAgain(t, s2, id, id + 1 + (n - 1) - 1, id + 1 + (n - 1), r, p - 1);
    LeadsOn(t, s, s2, s', n, n + 1, false);
  }

  lemma WritesAgain(t: Tunables, s: State, u: Id, w: Id, id: Id, r: Id, p: nat) returns (s': State, w': Id, id': Id)
    requires 3 * t.fifoBatch + 1 == U32 && t.writesStarved == 1
    requires At(t, s, true, [u], w, id, t.fifoBatch, 1, true) && WaitsAt(s, r, p)
    ensures Leads(t, s, s', t.fifoBatch + 1, false)
    ensures At(t, s', true, [u], w', id', t.fifoBatch, 0, true) && WaitsAt(s', r, p)
  {
    hide At, WaitsAt, Leads;
    var n := t.fifoBatch;
    var s1 := WriteChosen(t, s, u, w, id);
    s' := WholeBatch(t, s1, true, [u], id, id + 1, 0);
    w', id' := id + 1 + n - 1, id + 1 + n;
    RanOn(t, s, s1, s', true, 1, n);
    StillWaits(t, s, s', n + 1, r, p);
  }

  lemma {:induction false} AllPlaces(t: Tunables, s: State, u: Id, w: Id, id: Id, r: Id, p: nat) returns (s': State)
    requires 3 * t.fifoBatch + 1 == U32 && t.writesStarved == 1
    requires At(t, s, true, [u], w, id, t.fifoBatch, 0, true) && WaitsAt(s, r, p)
    ensures Leads(t, s, s', p * (2 * t.fifoBatch + 1), false) && WaitsAt(s', r, 0)
    decreases p
  {
    hide At, WaitsAt, Leads, Inv;
    if p == 0 {
      AtInv(t, s, true, [u], w, id, t.fifoBatch, 0, true);
      LeadsNowhere(t, s, false);
      s' := s;
    } else {
      var m := 2 * t.fifoBatch + 1;
      var s1, w1, id1 := OnePlace(t, s, u, w, id, r, p);
      s' := AllPlaces(t, s1, id, w1, id1, r, p - 1);
      LeadsOn(t, s, s1, s', m, (p - 1) * m, false);
      assert m + (p - 1) * m == p * m;
    }
  }

  // ---- how it comes to wait ----

  lemma {:induction false} PosNew(fifo: seq<Id>, id: Id)
    requires id !in fifo
    ensures Pos(fifo + [id], id) == |fifo|
  {
    if fifo == [] {
      assert fifo + [id] == [id];
    } else {
      assert (fifo + [id])[1..] == fifo[1..] + [id];
      PosNew(fifo[1..], id);
    }
  }

  /** Everything but the reads is as it was. */
  predicate OnlyMoreReads(s: State, s': State) {
    && s'.writeSide == s.writeSide && Extends(s.rqs, s'.rqs) && s'.now == s.now && s'.issued == s.issued
    && s'.batching == s.batching && s'.starved == s.starved
  }

  /** k more reads come, none of which starts at or before a sector in use. */
  lemma {:induction false} ReadsCome(t: Tunables, s: State, id: Id, sector: nat, k: nat) returns (s': State)
    requires Inv(t, s) && Fresh(s, id) && k >= 1
    requires forall x :: x in s.readSide.tree ==> Of(s.rqs, x).sector < sector
    ensures Leads(t, s, s', 0, false) && Inv(t, s') && Fresh(s', id + k) && OnlyMoreReads(s, s')
    ensures id + k - 1 in s'.readSide.fifo && Pos(s'.readSide.fifo, id + k - 1) == |s.readSide.fifo| + k - 1
    ensures id + k - 1 in s'.rqs && s'.rqs[id + k - 1].expire == s.now + t.readExpire && id + k - 1 !in s'.issued
    decreases k
  {
    hide Inv, Leads, Pos;
    TreeKnown(t, s, false, id);
    var s1 := Appended(t, s, false, id, sector);
    LeadsAny(t, s, s1, 0, true);
    PosNew(s.readSide.fifo, id);
    if k == 1 {
      s' := s1;
    } else {
      s' := ReadsCome(t, s1, id + 1, sector + 1, k - 1);
      LeadsOn(t, s, s1, s', 0, 0, false);
    }
  }

  lemma Ticks(t: Tunables, s: State, now: int) returns (s': State)
    requires Inv(t, s) && s.now <= now
    ensures Leads(t, s, s', 0, false) && Inv(t, s') && s' == s.(now := now)
  {
    hide Inv, Leads, NoBug;
    LeadsOne(t, s, Tick(now), false);
    s' := s.(now := now);
  }

  lemma NoneLeft(fifo: seq<Id>, tail: seq<Id>, r: Id)
    requires |fifo| > 0 && tail == fifo[1..] && forall x :: x in fifo ==> x == r
    ensures tail == [] || r in tail
  {
    if |tail| > 0 {
      var x := tail[0];
      assert x in tail && x == fifo[1] && x in fifo;
    }
  }

  lemma OnlyOne(fifo: seq<Id>, r: Id)
    requires Distinct(fifo) && r in fifo && forall x :: x in fifo ==> x == r
    ensures fifo == [r]
  {
    var tail := fifo[1..];
    assert fifo[0] in fifo && fifo[0] !in tail;
    NoneLeft(fifo, tail, r);
    assert fifo == [fifo[0]] + tail;
  }

  /** Where the reads of a run stand. */
  lemma AtReads(t: Tunables, s: State, q: Id, id: Id, b: nat, st: nat, jump: bool)
    requires At(t, s, false, [], q, id, b, st, jump)
    ensures Inv(t, s) && Fresh(s, id) && s.batching == b && s.starved == st
    ensures s.readSide.tree == [q] && s.readSide.fifo == [q]
  {
    Apart(t, s, false);
    hide Inv;
    assert s.readSide.tree == [] + [q] == [q];
    assert q in [q];
    OnlyOne(s.readSide.fifo, q);
  }

  /** Reads at 2/3 of the range of the counter, with one write waiting. */
  lemma TwoThirds(t: Tunables) returns (s: State, q: Id, x: Id, id: Id)
    requires 3 * t.fifoBatch + 1 == U32 && t.writesStarved == 1
    ensures Reached(t, s) && At(t, s, false, [], q, id, 2 * t.fifoBatch + 1, 1, true)
    ensures s.writeSide == Side([x], [x], None) && x in s.rqs && s.rqs[x].sector == 0
  {
    hide At, Leads, Reached;
    var n := t.fifoBatch;
    var s0 := Begin(t, 0, false);
    var s1 := Batched(t, s0, false, [], 1, 2, 1, 0, n - 1, true);
    SameWrites(t, s0, s1, n - 1);
    x := 2 + n - 1;
    var s2 := WriteComes(t, s1, x - 1, x, n, 0, true);
    s := Chooses(t, s2, x - 1, x + 1, n, 0);
    q, id := x + 1, x + 2;
    LeadsOn(t, s0, s1, s2, n - 1, 0, true);
    LeadsOn(t, s0, s2, s, n - 1, 1, true);
    ReachedBy(t, 0, s0, s, 1, n);
  }

  /** The reads have come, and all have expired. */
  lemma Expired(t: Tunables, p: nat) returns (s: State, x: Id, r: Id, id: Id)
    requires 3 * t.fifoBatch + 1 == U32 && t.writesStarved == 1 && p >= 1
    ensures Reached(t, s) && Inv(t, s) && Fresh(s, id) && WaitsAt(s, r, p) && r !in s.issued
    ensures s.batching == 2 * t.fifoBatch + 1 && s.starved == 1
    ensures s.writeSide == Side([x], [x], None) && x in s.rqs && s.rqs[x].sector == 0
  {
    hide Inv, Leads, Reached, Pos, At;
    var s0, q, x0, id0 := TwoThirds(t);
    x := x0;
    AtReads(t, s0, q, id0, 2 * t.fifoBatch + 1, 1, true);
    var s1 := ReadsCome(t, s0, id0, Of(s0.rqs, q).sector + 1, p);
    r, id := id0 + p - 1, id0 + p;
    s := Ticks(t, s1, s1.now + t.readExpire + 1);
    LeadsOn(t, s0, s1, s, 0, 0, false);
    ReachedMore(t, s0, s, 0);
  }

  /** The writes are the next. */
  lemma WritesNext(t: Tunables, s: State, x: Id, r: Id, p: nat, id: Id) returns (s': State, u: Id, w: Id, id': Id)
    requires Inv(t, s) && Fresh(s, id) && WaitsAt(s, r, p) && r !in s.issued
    requires s.writeSide == Side([x], [x], None) && x in s.rqs && s.rqs[x].sector == 0
    ensures Leads(t, s, s', 0, false) && At(t, s', true, [u], w, id', s.batching, s.starved, true)
    ensures WaitsAt(s', r, p) && r !in s'.issued
  {
    hide Inv, Leads, Pos;
    assert [x] == [x] + [];
    WriteTree(t, s, x, [], id);
    NotWrite(t, s, r, x);
    var s1 := AliasMoved(t, s, x, [], id);
    assert Without([x], x) == [] by { assert [x][1..] == []; }
    assert s1.writeSide == Side([id], [id], None) by { assert [id] + [] == [id] && [] + [id] == [id]; }
    var s2 := Appended(t, s1, true, id + 1, 5);
    LeadsAny(t, s1, s2, 0, true);
    LeadsOn(t, s, s1, s2, 0, 0, false);
    assert s2.writeSide.tree == [id] + [id + 1] && s2.writeSide.fifo == [id] + [id + 1];
    NotWrite(t, s2, r, id);
    s' := AliasMoved(t, s2, id, [id + 1], id + 2);
    LeadsOn(t, s, s2, s', 0, 0, false);
    u, w, id' := id + 2, id + 1, id + 3;
    ReplacedDue(t, s2, s', id, [id + 1], id + 2);
  }

  /** The read waits still: it has been neither dispatched nor merged into another. */
  lemma LeadsWaits(t: Tunables, s: State, s': State, r: Id, p: nat, n: nat) returns (steps: seq<Step>)
    requires Leads(t, s, s', n, false) && WaitsAt(s, r, p) && r !in s.issued && r in s'.readSide.fifo
    ensures Inv(t, s) && ValidRun(t, s, steps) && Calls(steps) == n
    ensures r !in RunFrom(t, s, steps).issued && !Absorbed(steps, r)
  {
    hide ValidRun, RunFrom, OnlyReads, Pos;
    steps :| Way(t, s, steps, s', n, false);
    Apart(t, s, false);
    hide Inv;
    NotIssued(t, s, steps, false, r);
    NotAbsorbed(steps, r);
  }

  lemma {:induction false} NotAbsorbed(steps: seq<Step>, r: Id)
    requires NoJoin(steps)
    ensures !Absorbed(steps, r)
  {
    if steps != [] {
      assert forall i :: 0 <= i < |steps| - 1 ==> steps[1..][i] == steps[i + 1];
      NotAbsorbed(steps[1..], r);
    }
  }

  /** A read that has waited for one call less than the bound, and still waits. */
  lemma LatencyReached(t: Tunables, p: nat) returns (s: State, steps: seq<Step>, r: Id)
    requires 3 * t.fifoBatch + 1 == U32 && t.writesStarved == 1 && p >= 1
    ensures Reached(t, s) && WaitsAt(s, r, p) && Inv(t, s) && ValidRun(t, s, steps)
    ensures Calls(steps) == (2 * p + 2) * t.fifoBatch + p + 1
    ensures r !in RunFrom(t, s, steps).issued && !Absorbed(steps, r)
  {
    hide At, Leads, Reached, Inv, WaitsAt, ValidRun, RunFrom;
    var n := t.fifoBatch;
    var s0, x, r0, id := Expired(t, p);
    r := r0;
    var u, w, id1;
    s, u, w, id1 := WritesNext(t, s0, x, r, p, id);
    ReachedMore(t, s0, s, 0);
    var s1 := WholeBatch(t, s, true, [u], w, id1, 1);
    StillWaits(t, s, s1, n, r, p);
    var s2, w2, id2 := WritesAgain(t, s1, u, id1 + n - 1, id1 + n, r, p);
    LeadsOn(t, s, s1, s2, n, n + 1, false);
    var s3 := AllPlaces(t, s2, u, w2, id2, r, p);
    LeadsOn(t, s, s2, s3, 2 * n + 1, p * (2 * n + 1), false);
    WaitsIn(s3, r, 0);
    assert 2 * n + 1 + p * (2 * n + 1) == (2 * p + 2) * n + p + 1;
    steps := LeadsWaits(t, s, s3, r, p, (2 * p + 2) * n + p + 1);
  }

  /** An expired read at place p has waited for so many calls. */
  ghost predicate Waited(t: Tunables, s: State, steps: seq<Step>, r: Id, p: nat, n: nat) {
    Reached(t, s) && Inv(t, s) && ValidRun(t, s, steps) && WaitsAt(s, r, p) && Calls(steps) >= n
  }

  /** In every run of a scheduler that started empty an expired read at place p leaves within
      2p + 3 batches' worth of calls. */
  ghost predicate PlainReads(t: Tunables, p: nat) {
    forall s: State, steps: seq<Step>, r: Id | Waited(t, s, steps, r, p, (2 * p + 3) * Batch(t)) ::
      r in RunFrom(t, s, steps).issued || Absorbed(steps, r)
  }

  lemma LeavesWithin(t: Tunables, s: State, steps: seq<Step>, r: Id, p: nat)
    requires t.fifoBatch <= INT_MAX && t.writesStarved >= 1 && Waited(t, s, steps, r, p, Latency(t, p))
    ensures r in RunFrom(t, s, steps).issued || Absorbed(steps, r)
  {
    hide Inv, ValidRun, RunFrom, Latency, Pos, Reached;
    ReadLatency(t, s, steps, r);
  }

  /** The plain promise to a read is kept exactly where `PlainRead` says. */
  lemma ReadsExactlyWhen(t: Tunables, p: nat)
    requires t.fifoBatch <= INT_MAX && t.writesStarved >= 1
    ensures PlainReads(t, p) <==> PlainRead(t, p)
  {
    hide Reached, WaitsAt, Inv, ValidRun, RunFrom, Calls;
    if PlainRead(t, p) {
      forall s: State, steps: seq<Step>, r: Id | Waited(t, s, steps, r, p, (2 * p + 3) * Batch(t))
        ensures r in RunFrom(t, s, steps).issued || Absorbed(steps, r)
      {
        LeavesWithin(t, s, steps, r, p);
      }
    } else {
      var s, steps, r := LatencyReached(t, p);
      var n := t.fifoBatch;
      assert (2 * p + 2) * n + p + 1 >= (2 * p + 3) * n by { assert (2 * p + 3) * n == (2 * p + 2) * n + n; }
      assert Waited(t, s, steps, r, p, (2 * p + 3) * Batch(t));
    }
  }
}
