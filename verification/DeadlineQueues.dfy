/**
 What every step of the deadline scheduler keeps: each direction's tree and fifo hold the same
 requests, the tree in strict sector order and the fifo in order of expiry, and the cached
 next request, of at most one direction, is in the tree.
 */
module DeadlineQueues {
  import opened Lists
  import opened SectorTree
  import opened Deadline

  // ---- the order of a tree and of a fifo ----

  predicate ByExpiry(rqs: Requests, fifo: seq<Id>) {
    || fifo == []
    || ((forall x :: x in fifo[1..] ==> Of(rqs, fifo[0]).expire <= Of(rqs, x).expire) && ByExpiry(rqs, fifo[1..]))
  }

  /** One direction; `hole` is a request that is in the fifo and for the moment not in the tree. */
  ghost predicate SideInv(rqs: Requests, side: Side, w: bool, horizon: int, hole: Option<Id>) {
    && (forall x :: x in side.tree <==> x in side.fifo && !(hole.Some? && hole.value == x))
    && (forall x :: x in side.fifo ==> x in rqs && rqs[x].write == w && rqs[x].expire <= horizon)
    && Sorted(rqs, side.tree)
    && Distinct(side.fifo)
    && ByExpiry(rqs, side.fifo)
    && (side.next.Some? ==> side.next.value in side.tree || side.next == hole)
  }

  /** Both directions; the hole, if any, is on side w. */
  ghost predicate HoleInv(t: Tunables, s: State, w: bool, hole: Option<Id>) {
    && SideInv(s.rqs, s.readSide, false, s.now + t.readExpire, if w then None else hole)
    && SideInv(s.rqs, s.writeSide, true, s.now + t.writeExpire, if w then hole else None)
    && !(s.readSide.next.Some? && s.writeSide.next.Some?)
    && s.batching < U32 && s.starved < U32
  }

  ghost predicate Inv(t: Tunables, s: State) {
    HoleInv(t, s, false, None)
  }

  // ---- taking one out ----

  lemma {:induction false} WithoutFifo(rqs: Requests, fifo: seq<Id>, id: Id)
    requires Distinct(fifo) && ByExpiry(rqs, fifo)
    ensures Distinct(Without(fifo, id)) && ByExpiry(rqs, Without(fifo, id))
  {
    if fifo != [] {
      WithoutFifo(rqs, fifo[1..], id);
      WithoutAll(fifo[1..], id);
      assert fifo[0] != id ==> Without(fifo, id)[1..] == Without(fifo[1..], id);
    }
  }

  lemma RemovedKeeps(rqs: Requests, side: Side, w: bool, h: int, hole: Option<Id>, id: Id)
    requires SideInv(rqs, side, w, h, hole) && Some(id) != hole
    ensures SideInv(rqs, Removed(side, id), w, h, hole)
  {
    WithoutAll(side.tree, id);
    WithoutAll(side.fifo, id);
    WithoutSorted(rqs, side.tree, id);
    WithoutFifo(rqs, side.fifo, id);
    AfterOther(rqs, side.tree, id);
    var r := Removed(side, id);
    assert side.next.Some? && side.next != Some(id) ==> side.next.value != id;
    assert side.next == Some(id) ==> r.next == After(side.tree, id);
    assert r.next.Some? && r.next != hole ==> r.next.value in r.tree;
  }

  lemma MovedKeeps(rqs: Requests, side: Side, w: bool, h: int, hole: Option<Id>, id: Id)
    requires SideInv(rqs, side, w, h, hole) && Some(id) != hole
    ensures SideInv(rqs, Moved(side, id), w, h, hole)
  {
    AfterOther(rqs, side.tree, id);
    RemovedKeeps(rqs, side.(next := After(side.tree, id)), w, h, hole, id);
  }

  // ---- putting one in ----

  lemma InsertKeeps(rqs: Requests, side: Side, w: bool, h: int, id: Id)
    requires SideInv(rqs, side, w, h, Some(id)) && id in side.fifo
    requires AliasOf(rqs, side.tree, Of(rqs, id).sector) == None
    ensures SideInv(rqs, side.(tree := Insert(rqs, side.tree, id)), w, h, None)
  {
    InsertedHas(rqs, side.tree, id);
    InsertSorted(rqs, side.tree, id);
  }

  // ---- when the table of requests changes ----

  /** rqs' agrees with rqs on what orders these requests. */
  predicate SameOrder(rqs: Requests, rqs': Requests, side: Side) {
    && (forall x :: x in side.fifo ==>
          x in rqs && x in rqs' && rqs'[x].write == rqs[x].write && rqs'[x].expire == rqs[x].expire)
    && (forall x :: x in side.tree ==> Of(rqs', x).sector == Of(rqs, x).sector)
  }

  lemma {:induction false} ByExpiryFrame(rqs: Requests, rqs': Requests, fifo: seq<Id>)
    requires ByExpiry(rqs, fifo) && forall x :: x in fifo ==> Of(rqs', x).expire == Of(rqs, x).expire
    ensures ByExpiry(rqs', fifo)
  {
    if fifo != [] { ByExpiryFrame(rqs, rqs', fifo[1..]); }
  }

  lemma SideFrame(rqs: Requests, rqs': Requests, side: Side, w: bool, h: int, h': int, hole: Option<Id>)
    requires SideInv(rqs, side, w, h, hole) && SameOrder(rqs, rqs', side) && h <= h'
    ensures SideInv(rqs', side, w, h', hole)
  {
    SortedFrame(rqs, rqs', side.tree);
    ByExpiryFrame(rqs, rqs', side.fifo);
  }

  // ---- at the end of the fifo ----

  lemma {:induction false} SnocFifo(rqs: Requests, fifo: seq<Id>, id: Id)
    requires Distinct(fifo) && ByExpiry(rqs, fifo) && id !in fifo
    requires forall x :: x in fifo ==> Of(rqs, x).expire <= Of(rqs, id).expire
    ensures Distinct(fifo + [id]) && ByExpiry(rqs, fifo + [id])
  {
    if fifo != [] {
      SnocFifo(rqs, fifo[1..], id);
      assert (fifo + [id])[1..] == fifo[1..] + [id];
    }
  }

  /** A new request, not yet in the tree: nothing in the fifo expires after it. */
  lemma QueueKeeps(rqs: Requests, rqs': Requests, side: Side, w: bool, h: int, id: Id)
    requires SideInv(rqs, side, w, h, None) && id !in rqs
    requires id in rqs' && (forall x :: x in rqs ==> x in rqs' && rqs'[x] == rqs[x])
    requires rqs'[id].write == w && rqs'[id].expire == h
    ensures SideInv(rqs', side.(fifo := side.fifo + [id]), w, h, Some(id))
  {
    SideFrame(rqs, rqs', side, w, h, h, None);
    SnocFifo(rqs', side.fifo, id);
  }

  // ---- deadline_merged_requests on the fifo ----

  /** `next` replaced by `id`, which is taken out of its place further back. */
  function Swapped(fifo: seq<Id>, id: Id, next: Id): (r: seq<Id>) {
    if fifo == [] then []
    else if fifo[0] == next then [id] + Without(fifo[1..], id)
    else [fifo[0]] + Swapped(fifo[1..], id, next)
  }

  lemma SwapHere(fifo: seq<Id>, id: Id, next: Id)
    requires Distinct(fifo) && fifo != [] && fifo[0] == next && id != next
    ensures Without(MoveAfter(fifo, id, next), next) == Swapped(fifo, id, next)
  {
    var tail := fifo[1..];
    WithoutAbsent(tail, next);
    WithoutHas(tail, id, next);
    WithoutAbsent(Without(tail, id), next);
    WithoutFront(next, [id] + Without(tail, id), next);
    WithoutFront(id, Without(tail, id), next);
    assert [next, id] + Without(tail, id) == [next] + ([id] + Without(tail, id));
  }

  lemma {:induction false} MoveIsSwap(rqs: Requests, fifo: seq<Id>, id: Id, next: Id)
    requires Distinct(fifo) && ByExpiry(rqs, fifo) && id in fifo && next in fifo && id != next
    requires Of(rqs, next).expire < Of(rqs, id).expire
    ensures Without(MoveAfter(fifo, id, next), next) == Swapped(fifo, id, next)
  {
    if fifo[0] == next {
      SwapHere(fifo, id, next);
    } else {
      assert fifo[0] != id;
      MoveIsSwap(rqs, fifo[1..], id, next);
      WithoutFront(fifo[0], MoveAfter(fifo[1..], id, next), next);
    }
  }

  lemma {:induction false} SwappedHas(fifo: seq<Id>, id: Id, next: Id, x: Id)
    requires Distinct(fifo) && id in fifo && next in fifo && id != next
    requires Before(fifo, next, id)
    ensures x in Swapped(fifo, id, next) <==> x in fifo && x != next
  {
    var tail := fifo[1..];
    assert x in fifo <==> x == fifo[0] || x in tail;
    if fifo[0] == next {
      WithoutAll(tail, id);
    } else {
      SwappedHas(tail, id, next, x);
    }
  }

  /** a comes before b. */
  predicate Before(fifo: seq<Id>, a: Id, b: Id) {
    fifo != [] && fifo[0] != b && (fifo[0] == a || Before(fifo[1..], a, b))
  }

  lemma {:induction false} ExpiryBefore(rqs: Requests, fifo: seq<Id>, a: Id, b: Id)
    requires ByExpiry(rqs, fifo) && a in fifo && b in fifo
    requires Of(rqs, a).expire < Of(rqs, b).expire
    ensures Before(fifo, a, b)
  {
    if fifo[0] != a && fifo[0] != b { ExpiryBefore(rqs, fifo[1..], a, b); }
  }

  lemma {:induction false} SwappedOrder(rqs: Requests, rqs': Requests, fifo: seq<Id>, id: Id, next: Id)
    requires Distinct(fifo) && ByExpiry(rqs, fifo) && id in fifo && next in fifo && id != next
    requires Before(fifo, next, id)
    requires forall x :: x in fifo && x != id ==> Of(rqs', x).expire == Of(rqs, x).expire
    requires Of(rqs', id).expire == Of(rqs, next).expire
    ensures Distinct(Swapped(fifo, id, next)) && ByExpiry(rqs', Swapped(fifo, id, next))
  {
    var tail := fifo[1..];
    if fifo[0] == next {
      WithoutAll(tail, id);
      WithoutFifo(rqs, tail, id);
      ByExpiryFrame(rqs, rqs', Without(tail, id));
      assert Swapped(fifo, id, next)[1..] == Without(tail, id);
    } else {
      SwappedOrder(rqs, rqs', tail, id, next);
      forall x ensures x in Swapped(tail, id, next) <==> x in tail && x != next { SwappedHas(tail, id, next, x); }
      assert Swapped(fifo, id, next)[1..] == Swapped(tail, id, next);
    }
  }

  // ---- the operations ----

  lemma MoveKeeps(t: Tunables, s: State, w: bool, hole: Option<Id>, id: Id)
    requires HoleInv(t, s, w, hole) && Some(id) != hole
    ensures HoleInv(t, MoveRequest(s, id), w, hole)
  {
    var read, write := s.readSide.(next := None), s.writeSide.(next := None);
    if Of(s.rqs, id).write {
      MovedKeeps(s.rqs, write, true, s.now + t.writeExpire, if w then hole else None, id);
    } else {
      MovedKeeps(s.rqs, read, false, s.now + t.readExpire, if w then None else hole, id);
    }
  }

  lemma InsertRbKeeps(t: Tunables, s: State, id: Id)
    requires HoleInv(t, s, Of(s.rqs, id).write, Some(id)) && id in Get(s, Of(s.rqs, id).write).fifo
    requires AliasOf(s.rqs, Get(s, Of(s.rqs, id).write).tree, Of(s.rqs, id).sector) == None
    ensures Inv(t, InsertRb(s, id))
  {
    var w := Of(s.rqs, id).write;
    InsertKeeps(s.rqs, Get(s, w), w, s.now + Expiry(t, w), id);
  }

  lemma AddRbKeeps(t: Tunables, s: State, id: Id)
    requires HoleInv(t, s, Of(s.rqs, id).write, Some(id)) && id in Get(s, Of(s.rqs, id).write).fifo
    ensures Inv(t, AddRqRb(s, id))
  {
    var w := Of(s.rqs, id).write;
    var tree, sector := Get(s, w).tree, Of(s.rqs, id).sector;
    match AliasOf(s.rqs, tree, sector)
    case None => InsertRbKeeps(t, s, id);
    case Some(alias) =>
      assert alias in Get(s, w).fifo && alias != id && Of(s.rqs, alias).write == w;
      MoveKeeps(t, s, w, Some(id), alias);
      OneAlias(s.rqs, tree, sector);
      WithoutHas(Get(s, w).fifo, alias, id);
      InsertRbKeeps(t, MoveRequest(s, alias), id);
  }

  /** Putting a new request at the end of the fifo before or after it goes into the tree is the same. */
  lemma QueueFirst(s: State, id: Id, w: bool)
    requires Of(s.rqs, id).write == w && id !in Get(s, w).tree
    requires forall x :: x in Get(s, w).tree ==> Of(s.rqs, x).write == w
    ensures Queue(AddRqRb(s, id), w, id) == AddRqRb(Queue(s, w, id), id)
  {
    match AliasOf(s.rqs, Get(s, w).tree, Of(s.rqs, id).sector)
    case None =>
    case Some(alias) => WithoutSnoc(Get(s, w).fifo, id, alias);
  }

  /** A change to one request leaves the other direction alone. */
  lemma OtherSide(rqs: Requests, rqs': Requests, side: Side, w: bool, h: int, id: Id)
    requires SideInv(rqs, side, w, h, None) && id !in side.fifo
    requires forall x :: x in rqs && x != id ==> x in rqs' && rqs'[x] == rqs[x]
    ensures SideInv(rqs', side, w, h, None)
  {
    SideFrame(rqs, rqs', side, w, h, h, None);
  }

  /** The two directions, taken together. */
  lemma Together(t: Tunables, s: State, w: bool, hole: Option<Id>)
    requires SideInv(s.rqs, Get(s, w), w, s.now + Expiry(t, w), hole)
    requires SideInv(s.rqs, Get(s, !w), !w, s.now + Expiry(t, !w), None)
    requires !(s.readSide.next.Some? && s.writeSide.next.Some?)
    requires s.batching < U32 && s.starved < U32
    ensures HoleInv(t, s, w, hole)
  {
  }

  lemma PutTogether(t: Tunables, s: State, s': State, w: bool, rqs: Requests, side: Side, hole: Option<Id>)
    requires Inv(t, s) && s' == Put(s, w, side).(rqs := rqs)
    requires SideInv(rqs, side, w, s.now + Expiry(t, w), hole)
    requires SideInv(rqs, Get(s, !w), !w, s.now + Expiry(t, !w), None)
    requires side.next.Some? ==> Get(s, w).next.Some?
    ensures HoleInv(t, s', w, hole) && (hole == None ==> Inv(t, s'))
  {
    Together(t, s', w, hole);
  }

  lemma Apart(t: Tunables, s: State, w: bool)
    requires Inv(t, s)
    ensures SideInv(s.rqs, Get(s, w), w, s.now + Expiry(t, w), None)
    ensures SideInv(s.rqs, Get(s, !w), !w, s.now + Expiry(t, !w), None)
    ensures !(s.readSide.next.Some? && s.writeSide.next.Some?)
  {
  }

  lemma QueueHole(t: Tunables, s: State, s': State, id: Id, w: bool)
    requires Inv(t, s) && id !in s.rqs && id in s'.rqs
    requires forall x :: x in s.rqs ==> x in s'.rqs && s'.rqs[x] == s.rqs[x]
    requires s'.rqs[id].write == w && s'.rqs[id].expire == s.now + Expiry(t, w)
    requires s' == Queue(s, w, id).(rqs := s'.rqs)
    ensures HoleInv(t, s', w, Some(id))
  {
    Apart(t, s, w);
    QueueKeeps(s.rqs, s'.rqs, Get(s, w), w, s.now + Expiry(t, w), id);
    OtherSide(s.rqs, s'.rqs, Get(s, !w), !w, s.now + Expiry(t, !w), id);
    Together(t, s', w, Some(id));
  }

  lemma AddKeeps(t: Tunables, s: State, id: Id, w: bool, sector: nat, len: nat)
    requires Inv(t, s) && id !in s.rqs
    ensures Inv(t, AddRequest(t, s, id, w, sector, len))
  {
    var s1 := Registered(t, s, id, w, sector, len);
    AddRegistered(t, s, s1, id, w, AddRequest(t, s, id, w, sector, len));
  }

  lemma AddRegistered(t: Tunables, s: State, s1: State, id: Id, w: bool, s2: State)
    requires Inv(t, s) && id !in s.rqs && s1 == s.(rqs := s1.rqs)
    requires id in s1.rqs && s1.rqs[id].write == w && s1.rqs[id].expire == s.now + Expiry(t, w)
    requires forall x :: x in s.rqs ==> x in s1.rqs && s1.rqs[x] == s.rqs[x]
    requires s2 == Queue(AddRqRb(s1, id), w, id)
    ensures Inv(t, s2)
  {
    QueueHole(t, s, Queue(s1, w, id), id, w);
    AddQueued(t, s, s1, id, w, s2);
  }

  lemma AddQueued(t: Tunables, s: State, s1: State, id: Id, w: bool, s2: State)
    requires Inv(t, s) && id !in s.rqs && s1 == s.(rqs := s1.rqs) && Of(s1.rqs, id).write == w
    requires forall x :: x in s.rqs ==> x in s1.rqs && s1.rqs[x] == s.rqs[x]
    requires HoleInv(t, Queue(s1, w, id), w, Some(id))
    requires s2 == Queue(AddRqRb(s1, id), w, id)
    ensures Inv(t, s2)
  {
    Apart(t, s, w);
    NotYetIn(s.rqs, s1.rqs, Get(s, w), w, s.now + Expiry(t, w), id);
    QueueFirst(s1, id, w);
    AddRbKeeps(t, Queue(s1, w, id), id);
  }

  lemma NotYetIn(rqs: Requests, rqs': Requests, side: Side, w: bool, h: int, id: Id)
    requires SideInv(rqs, side, w, h, None) && id !in rqs
    requires forall x :: x in rqs ==> x in rqs' && rqs'[x] == rqs[x]
    ensures id !in side.tree && forall x :: x in side.tree ==> Of(rqs', x).write == w
  {
  }

  lemma TakenOff(rqs: Requests, rqs': Requests, side: Side, w: bool, h: int, id: Id, sector: nat, len: nat)
    requires SideInv(rqs, side, w, h, None) && id in side.fifo && rqs' == Resized(rqs, id, sector, len)
    ensures SideInv(rqs', side.(tree := Without(side.tree, id)), w, h, Some(id))
  {
    var off := side.(tree := Without(side.tree, id));
    WithoutAll(side.tree, id);
    WithoutSorted(rqs, side.tree, id);
    assert side.next.Some? && side.next != Some(id) ==> side.next.value != id;
    assert SideInv(rqs, off, w, h, Some(id));
    SideFrame(rqs, rqs', off, w, h, h, Some(id));
  }

  lemma TakenOffSides(rqs: Requests, rqs': Requests, side: Side, other: Side, w: bool, h: int, h': int,
                      id: Id, sector: nat, len: nat)
    requires SideInv(rqs, side, w, h, None) && SideInv(rqs, other, !w, h', None)
    requires id in side.fifo && rqs' == Resized(rqs, id, sector, len)
    ensures SideInv(rqs', side.(tree := Without(side.tree, id)), w, h, Some(id))
    ensures SideInv(rqs', other, !w, h', None)
  {
    TakenOff(rqs, rqs', side, w, h, id, sector, len);
    OtherSide(rqs, rqs', other, !w, h', id);
  }

  lemma FrontMergeHole(t: Tunables, s: State, s1: State, id: Id, sector: nat, len: nat)
    requires Inv(t, s) && Queued(s, id)
    requires s1 == TakeOff(s, id).(rqs := Resized(s.rqs, id, sector, len))
    ensures HoleInv(t, s1, Of(s.rqs, id).write, Some(id))
  {
    var w := Of(s.rqs, id).write;
    Apart(t, s, w);
    TakenOffSides(s.rqs, s1.rqs, Get(s, w), Get(s, !w), w, s.now + Expiry(t, w), s.now + Expiry(t, !w), id, sector,
                  len);
    PutTogether(t, s, s1, w, s1.rqs, Get(s, w).(tree := Without(Get(s, w).tree, id)), Some(id));
  }

  lemma FrontMergeKeeps(t: Tunables, s: State, id: Id, sector: nat, len: nat)
    requires Inv(t, s) && Queued(s, id)
    ensures Inv(t, FrontMerge(s, id, sector, len))
  {
    var s1 := TakeOff(s, id).(rqs := Resized(s.rqs, id, sector, len));
    FrontMergeHole(t, s, s1, id, sector, len);
    AddRbKeeps(t, s1, id);
  }

  lemma SameDir(rqs: Requests, rqs': Requests, side: Side, w: bool, h: int, id: Id)
    requires SideInv(rqs, side, w, h, None)
    requires forall x :: x in rqs ==> x in rqs' && rqs'[x] == rqs[x].(len := rqs'[x].len)
    ensures SideInv(rqs', side, w, h, None)
  {
    SideFrame(rqs, rqs', side, w, h, h, None);
  }

  lemma GrowBackKeeps(t: Tunables, s: State, id: Id, len: nat)
    requires Inv(t, s) && Queued(s, id)
    ensures Inv(t, s.(rqs := Resized(s.rqs, id, Of(s.rqs, id).sector, len)))
  {
    var rqs := Resized(s.rqs, id, Of(s.rqs, id).sector, len);
    SameDir(s.rqs, rqs, s.readSide, false, s.now + t.readExpire, id);
    SameDir(s.rqs, rqs, s.writeSide, true, s.now + t.writeExpire, id);
  }

  lemma JoinFifo(rqs: Requests, rqs': Requests, fifo: seq<Id>, fifo': seq<Id>, id: Id, next: Id)
    requires Distinct(fifo) && ByExpiry(rqs, fifo) && id in fifo && next in fifo && id != next
    requires Of(rqs, next).expire < Of(rqs, id).expire
    requires forall x :: x in fifo && x != id ==> Of(rqs', x).expire == Of(rqs, x).expire
    requires Of(rqs', id).expire == Of(rqs, next).expire
    requires fifo' == Without(MoveAfter(fifo, id, next), next)
    ensures Distinct(fifo') && ByExpiry(rqs', fifo')
    ensures forall x :: x in fifo' <==> x in fifo && x != next
  {
    ExpiryBefore(rqs, fifo, next, id);
    MoveIsSwap(rqs, fifo, id, next);
    SwappedOrder(rqs, rqs', fifo, id, next);
    forall x ensures x in fifo' <==> x in fifo && x != next { SwappedHas(fifo, id, next, x); }
  }

  lemma JoinSide(rqs: Requests, rqs': Requests, side: Side, w: bool, h: int, id: Id, next: Id)
    requires SideInv(rqs, side, w, h, None) && id in side.fifo && next in side.fifo && id != next
    requires rqs' == JoinedRequests(rqs, id, next)
    ensures SideInv(rqs', Joined(rqs, side, id, next), w, h, None)
    ensures Joined(rqs, side, id, next).next.Some? ==> side.next.Some?
  {
    var after := Joined(rqs, side, id, next);
    RemovedKeeps(rqs, side, w, h, None, next);
    WithoutAll(side.fifo, next);
    if Sooner(rqs, next, id) {
      JoinFifo(rqs, rqs', side.fifo, after.fifo, id, next);
      SortedFrame(rqs, rqs', Without(side.tree, next));
    }
    assert after.tree == Removed(side, next).tree && after.next == Removed(side, next).next;
  }

  lemma JoinSides(rqs: Requests, rqs': Requests, side: Side, other: Side, w: bool, h: int, h': int, id: Id, next: Id)
    requires SideInv(rqs, side, w, h, None) && SideInv(rqs, other, !w, h', None)
    requires id in side.fifo && next in side.fifo && id != next
    requires rqs' == JoinedRequests(rqs, id, next)
    ensures SideInv(rqs', Joined(rqs, side, id, next), w, h, None)
    ensures SideInv(rqs', other, !w, h', None)
    ensures Joined(rqs, side, id, next).next.Some? ==> side.next.Some?
  {
    JoinSide(rqs, rqs', side, w, h, id, next);
    OtherSide(rqs, rqs', other, !w, h', id);
  }

  lemma JoinKeeps(t: Tunables, s: State, id: Id, next: Id)
    requires Inv(t, s) && Enabled(s, Join(id, next))
    ensures Inv(t, MergedRequests(s, id, next))
  {
    var w := Of(s.rqs, id).write;
    JoinIn(t, s, id, next, w, JoinedRequests(s.rqs, id, next), Joined(s.rqs, Get(s, w), id, next));
  }

  lemma JoinIn(t: Tunables, s: State, id: Id, next: Id, w: bool, rqs: Requests, side: Side)
    requires Inv(t, s) && id in Get(s, w).fifo && next in Get(s, w).fifo && id != next
    requires rqs == JoinedRequests(s.rqs, id, next) && side == Joined(s.rqs, Get(s, w), id, next)
    ensures Inv(t, Put(s, w, side).(rqs := rqs))
  {
    hide SideInv, Joined, JoinedRequests;
    var mine, other := Get(s, w), Get(s, !w);
    Apart(t, s, w);
    JoinSides(s.rqs, rqs, mine, other, w, s.now + Expiry(t, w), s.now + Expiry(t, !w), id, next);
    PutTogether(t, s, Put(s, w, side).(rqs := rqs), w, rqs, side, None);
  }

  lemma IssueKeeps(t: Tunables, s: State, id: Id)
    requires Inv(t, s)
    ensures Inv(t, Issue(s, id))
  {
    var s1 := s.(batching := (s.batching + 1) % U32);
    assert Inv(t, s1);
    MoveKeeps(t, s1, false, None, id);
  }

  lemma NeverBug(t: Tunables, s: State)
    requires Inv(t, s)
    ensures NoBug(s)
  {
    HeadInTree(s.rqs, s.readSide, false, s.now + t.readExpire);
    HeadInTree(s.rqs, s.writeSide, true, s.now + t.writeExpire);
  }

  lemma HeadInTree(rqs: Requests, side: Side, w: bool, h: int)
    requires SideInv(rqs, side, w, h, None)
    ensures side.fifo != [] ==> side.tree != []
  {
    if side.fifo != [] {
      var x := side.fifo[0];
      assert x in side.fifo && x in side.tree;
    }
  }

  lemma FindKeeps(t: Tunables, s: State, w: bool)
    requires Inv(t, s) && Get(s, w).fifo != [] && Get(s, w).tree != []
    ensures Inv(t, FindRequest(s, w))
  {
    hide SideInv, Issue;
    var side := Get(s, w);
    IssueKeeps(t, s.(batching := 0), side.fifo[0]);
    if side.next.Some? { IssueKeeps(t, s, side.next.value); }
    IssueKeeps(t, s.(batching := 0), side.tree[0]);
  }

  lemma CountersFree(t: Tunables, s: State, b: nat, n: nat)
    requires Inv(t, s) && b < U32 && n < U32
    ensures Inv(t, s.(batching := b, starved := n))
  {
  }

  lemma SelectKeeps(t: Tunables, s: State)
    requires Inv(t, s) && NoBug(s)
    ensures Inv(t, Select(t, s))
  {
    var up := if s.writeSide.fifo != [] then (s.starved + 1) % U32 else s.starved;
    CountersFree(t, s, s.batching, 0);
    CountersFree(t, s, s.batching, up);
    if s.writeSide.fifo != [] { FindKeeps(t, s.(starved := 0), true); }
    if s.readSide.fifo != [] { FindKeeps(t, s.(starved := up), false); }
  }

  lemma DispatchKeeps(t: Tunables, s: State)
    requires Inv(t, s) && NoBug(s)
    ensures Inv(t, Dispatch(t, s))
  {
    var s1 := s.(batching := Charged(t, s));
    CountersFree(t, s, Charged(t, s), s.starved);
    if InBatch(t, s) {
      IssueKeeps(t, s1, Candidate(s).value);
    } else {
      SelectKeeps(t, s1);
    }
  }

  /** Every step keeps the invariant, and neither BUG_ON can be reached. */
  lemma StepKeeps(t: Tunables, s: State, step: Step)
    requires Inv(t, s) && Enabled(s, step)
    ensures NoBug(s) && Inv(t, Apply(t, s, step))
  {
    NeverBug(t, s);
    match step
    case Add(id, w, sector, len) => AddKeeps(t, s, id, w, sector, len);
    case GrowFront(id, sector, len) => FrontMergeKeeps(t, s, id, sector, len);
    case GrowBack(id, len) => GrowBackKeeps(t, s, id, len);
    case Join(id, next) => JoinKeeps(t, s, id, next);
    case DispatchOne => DispatchKeeps(t, s);
    case Tick(now) =>
      SideFrame(s.rqs, s.rqs, s.readSide, false, s.now + t.readExpire, now + t.readExpire, None);
      SideFrame(s.rqs, s.rqs, s.writeSide, true, s.now + t.writeExpire, now + t.writeExpire, None);
  }
}
