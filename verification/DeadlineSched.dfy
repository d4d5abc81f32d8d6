/**
 The deadline scheduler as the kernel writes it: one object whose fields its functions update.
 Each method of its interface does one step of the state machine of module Deadline, finds
 and leaves the queues in agreement, and says what became of the requests.
 */
module DeadlineSched {
  import opened Lists
  import opened SectorTree
  import opened Deadline
  import opened DeadlineQueues
  import opened DeadlineBounds

  class DeadlineData {
    const tunables: Tunables
    var rqs: Requests
    var sortList: map<bool, seq<Id>>
    var fifoList: map<bool, seq<Id>>
    var nextRq: map<bool, Option<Id>>
    var batching: nat
    var starved: nat
    var lastSector: nat
    var jiffies: int
    var dispatched: seq<Id>

    ghost predicate Shaped()
      reads this
    {
      && false in sortList && true in sortList
      && false in fifoList && true in fifoList
      && false in nextRq && true in nextRq
    }

    ghost function View(): (s: State)
      requires Shaped()
      reads this
    {
      State(rqs, Side(sortList[false], fifoList[false], nextRq[false]),
            Side(sortList[true], fifoList[true], nextRq[true]),
            batching, starved, lastSector, jiffies, dispatched)
    }

    /** What the functions of the scheduler's interface find and leave: the queues of each
        direction agree and are in order, so that neither BUG_ON can fire. */
    ghost predicate Valid()
      reads this
    {
      Shaped() && Inv(tunables, View()) && NoBug(View())
    }

    /** deadline_init_queue. */
    constructor (t: Tunables, now: int)
      ensures Valid() && View() == Start(now) && tunables == t
    {
      tunables := t;
      rqs, jiffies, dispatched := map[], now, [];
      sortList, fifoList := map[false := [], true := []], map[false := [], true := []];
      nextRq := map[false := None, true := None];
      batching, starved, lastSector := 0, 0, 0;
    }

    method DelRqRb(id: Id)
      requires Shaped()
      modifies this`sortList, this`nextRq
      ensures Shaped()
      ensures View() == Put(old(View()), Of(rqs, id).write, Deadline.DelRqRb(Get(old(View()), Of(rqs, id).write), id))
    {
      var w := Of(rqs, id).write;
      if nextRq[w] == Some(id) {
        nextRq := nextRq[w := After(sortList[w], id)];
      }
      sortList := sortList[w := Without(sortList[w], id)];
    }

    method RemoveRequest(id: Id)
      requires Shaped()
      modifies this`sortList, this`fifoList, this`nextRq
      ensures Shaped()
      ensures View() == Put(old(View()), Of(rqs, id).write, Removed(Get(old(View()), Of(rqs, id).write), id))
    {
      var w := Of(rqs, id).write;
      fifoList := fifoList[w := Without(fifoList[w], id)];
      DelRqRb(id);
    }

    method MoveRequest(id: Id)
      requires Shaped()
      modifies this`sortList, this`fifoList, this`nextRq, this`lastSector, this`dispatched
      ensures Shaped() && View() == Deadline.MoveRequest(old(View()), id)
    {
      var w := Of(rqs, id).write;
      var rbnext := After(sortList[w], id);
      nextRq := nextRq[false := None][true := None];
      nextRq := nextRq[w := rbnext];
      lastSector := Of(rqs, id).sector + Of(rqs, id).len;
      RemoveRequest(id);
      dispatched := dispatched + [id];
    }

    /** The insertion is tried again as long as a request starts at the same sector. */
    method AddRqRb(id: Id)
      requires Shaped() && HoleInv(tunables, View(), Of(rqs, id).write, Some(id))
      modifies this`sortList, this`fifoList, this`nextRq, this`lastSector, this`dispatched
      ensures Shaped() && View() == Deadline.AddRqRb(old(View()), id)
    {
      var w, sector := Of(rqs, id).write, Of(rqs, id).sector;
      var alias := AliasOf(rqs, sortList[w], sector);
      ghost var first := View();
      while alias.Some?
        invariant Shaped() && HoleInv(tunables, View(), w, Some(id))
        invariant alias == AliasOf(rqs, sortList[w], sector)
        invariant View() == first || (alias == None && AliasOf(rqs, Get(first, w).tree, sector).Some? &&
                                      View() == Deadline.MoveRequest(first,
                                                                     AliasOf(rqs, Get(first, w).tree, sector).value))
        decreases alias.Some?
      {
        AliasMoved(tunables, View(), id, alias.value);
        MoveRequest(alias.value);
        alias := AliasOf(rqs, sortList[w], sector);
      }
      sortList := sortList[w := Insert(rqs, sortList[w], id)];
    }

    method InsertNew(id: Id, w: bool, sector: nat, len: nat)
      requires Valid() && id !in rqs
      modifies this
      ensures Shaped() && View() == Deadline.AddRequest(tunables, old(View()), id, w, sector, len)
    {
      hide NoBug, Inv, HoleInv, Deadline.AddRqRb;
      ghost var s := View();
      rqs := rqs[id := Request(w, sector, len, jiffies + Expiry(tunables, w))];
      NewHole(tunables, s, View(), id, w);
      AddRqRb(id);
      fifoList := fifoList[w := fifoList[w] + [id]];
    }

    /** The new request is last in its fifo and in the tree; whatever left the queues for it
        has been dispatched. */
    method AddRequest(id: Id, w: bool, sector: nat, len: nat)
      requires Valid() && id !in rqs
      modifies this
      ensures Valid() && View() == Deadline.AddRequest(tunables, old(View()), id, w, sector, len)
      ensures LastIn(Get(View(), w), id) && NothingLost(old(View()), View())
    {
      hide Inv, NoBug, Deadline.AddRequest, NothingLost, LastIn;
      ghost var s := View();
      InsertNew(id, w, sector, len);
      AddKeeps(tunables, s, id, w, sector, len);
      AddNothingLost(tunables, s, id, w, sector, len);
      NeverBug(tunables, View());
    }

    method MoveInTree(id: Id, sector: nat, len: nat)
      requires Valid() && Queued(View(), id)
      modifies this
      ensures Shaped() && View() == FrontMerge(old(View()), id, sector, len)
    {
      hide NoBug, Inv, HoleInv, Queued, Deadline.AddRqRb;
      ghost var s := View();
      var w := Of(rqs, id).write;
      rqs := Resized(rqs, id, sector, len);
      sortList := sortList[w := Without(sortList[w], id)];
      FrontMergeHole(tunables, s, View(), id, sector, len);
      AddRqRb(id);
    }

    /** A bio has been merged in front: the request starts earlier and is moved in the tree. */
    method MergedRequest(id: Id, sector: nat, len: nat)
      requires Valid() && Queued(View(), id)
      modifies this
      ensures Valid() && View() == FrontMerge(old(View()), id, sector, len)
      ensures NothingLost(old(View()), View())
    {
      hide Inv, NoBug, FrontMerge, NothingLost, Queued;
      ghost var s := View();
      MoveInTree(id, sector, len);
      FrontMergeKeeps(tunables, s, id, sector, len);
      FrontMergeNothingLost(s, id, sector, len);
      NeverBug(tunables, View());
    }

    method Absorb(id: Id, next: Id)
      requires Shaped() && Of(rqs, id).write == Of(rqs, next).write
      modifies this
      ensures Shaped() && View() == Deadline.MergedRequests(old(View()), id, next)
    {
      var w := Of(rqs, id).write;
      if Of(rqs, next).expire < Of(rqs, id).expire {
        fifoList := fifoList[w := MoveAfter(fifoList[w], id, next)];
        rqs := rqs[id := Of(rqs, id).(expire := Of(rqs, next).expire)];
      }
      RemoveRequest(next);
    }

    /** `next` is gone, and every other request is still queued, no further back. */
    method MergedRequests(id: Id, next: Id)
      requires Valid() && Enabled(View(), Join(id, next))
      modifies this
      ensures Valid() && View() == Deadline.MergedRequests(old(View()), id, next)
      ensures OnlyLost(Get(old(View()), old(Of(rqs, id).write)).fifo, Get(View(), old(Of(rqs, id).write)).fifo, next)
    {
      hide Inv, NoBug, Deadline.MergedRequests, OnlyLost, Queued;
      ghost var s := View();
      Absorb(id, next);
      JoinKeeps(tunables, s, id, next);
      JoinNothingLost(tunables, s, id, next);
      NeverBug(tunables, View());
    }

    /** deadline_dispatch_requests; returns whether a request was dispatched.  It dispatches
        one whenever any is queued, and nothing else leaves the queues. */
    method DispatchRequests() returns (any: bool)
      requires Valid()
      modifies this
      ensures Valid() && View() == Dispatch(tunables, old(View()))
      ensures any <==> Get(old(View()), false).fifo != [] || Get(old(View()), true).fifo != []
      ensures !any ==> dispatched == old(dispatched) && NoneQueued(View())
      ensures any ==> exists id, w :: Dispatched(old(View()), View(), id, w)
    {
      hide Inv, NoBug, Dispatch, Dispatched;
      ghost var s := View();
      DispatchKeeps(tunables, s);
      DispatchTakes(tunables, s);
      any := fifoList[false] != [] || fifoList[true] != [];
      NextOrSelect();
      NeverBug(tunables, View());
    }

    /** elv_drain_elevator: calls until nothing was dispatched; then nothing is queued, and as
        many requests have been dispatched as were queued. */
    method Drain()
      requires Valid()
      modifies this
      ensures Valid() && NoneQueued(View())
      ensures |dispatched| == |old(dispatched)| + QueuedCount(old(View()))
    {
      hide Inv, NoBug, Dispatch, Dispatched;
      var any := true;
      while any
        invariant Valid() && (!any ==> NoneQueued(View()))
        invariant |dispatched| + QueuedCount(View()) == |old(dispatched)| + QueuedCount(old(View()))
        decreases QueuedCount(View()), any
      {
        ghost var s := View();
        any := DispatchRequests();
        if any { DispatchedFewer(tunables, s, View()); }
      }
    }

    method NextOrSelect()
      requires Shaped() && NoBug(View())
      modifies this
      ensures Shaped() && View() == Dispatch(tunables, old(View()))
    {
      hide Issue, Select;
      var rq := if nextRq[true].Some? then nextRq[true] else nextRq[false];
      if rq.Some? {
        if lastSector != Of(rqs, rq.value).sector {
          batching := (batching + tunables.fifoBatch) % U32;
        }
        if batching < tunables.fifoBatch {
          IssueOne(rq.value);
          return;
        }
      }
      SelectRequest();
    }

    /** Not in a batch: choose a direction, and the best request of it. */
    method SelectRequest()
      requires Shaped() && NoBug(View())
      modifies this
      ensures Shaped() && View() == Select(tunables, old(View()))
    {
      hide FindRequest;
      var anyReads, anyWrites := fifoList[false] != [], fifoList[true] != [];
      var w := true;
      if anyReads {
        if anyWrites {
          var n := starved;
          starved := (starved + 1) % U32;
          w := n >= tunables.writesStarved;
        } else {
          w := false;
        }
      } else if !anyWrites {
        return;
      }
      if w { starved := 0; }
      IssueBest(w);
    }

    method IssueBest(w: bool)
      requires Shaped() && fifoList[w] != [] && sortList[w] != []
      modifies this
      ensures Shaped() && View() == FindRequest(old(View()), w)
    {
      hide Issue;
      var rq;
      if jiffies > Of(rqs, fifoList[w][0]).expire {
        batching := 0;
        rq := fifoList[w][0];
      } else if nextRq[w].Some? {
        rq := nextRq[w].value;
      } else {
        batching := 0;
        rq := sortList[w][0];
      }
      IssueOne(rq);
    }

    method IssueOne(id: Id)
      requires Shaped()
      modifies this
      ensures Shaped() && View() == Issue(old(View()), id)
    {
      batching := (batching + 1) % U32;
      MoveRequest(id);
    }
  }

  predicate NoneQueued(s: State) {
    s.readSide.fifo == [] && s.writeSide.fifo == []
  }

  function QueuedCount(s: State): (n: nat) {
    |s.readSide.fifo| + |s.writeSide.fifo|
  }

  lemma DispatchedFewer(t: Tunables, s: State, s': State)
    requires Inv(t, s) && exists id, w :: Dispatched(s, s', id, w)
    ensures QueuedCount(s') == QueuedCount(s) - 1 && |s'.issued| == |s.issued| + 1
  {
    var id, w :| Dispatched(s, s', id, w);
    Apart(t, s, w);
    WithoutDistinct(Get(s, w).fifo, id);
  }

  /** One queued request has gone to the dispatch queue, and the rest is as it was. */
  predicate Dispatched(s: State, s': State, id: Id, w: bool) {
    && id in Get(s, w).fifo && s'.issued == s.issued + [id]
    && Get(s', w).fifo == Without(Get(s, w).fifo, id) && Get(s', !w).fifo == Get(s, !w).fifo
  }

  /** A request that is no longer queued has been dispatched. */
  ghost predicate NothingLost(s: State, s': State) {
    forall x, v :: x in Get(s, v).fifo ==> x in Get(s', v).fifo || x in s'.issued
  }

  predicate LastIn(side: Side, id: Id) {
    id in side.tree && side.fifo != [] && side.fifo[|side.fifo| - 1] == id
  }

  /** One request is gone, and no other has fallen back. */
  ghost predicate OnlyLost(fifo: seq<Id>, fifo': seq<Id>, gone: Id) {
    forall x :: (x in fifo' <==> x in fifo && x != gone) && (x in fifo' ==> Pos(fifo', x) <= Pos(fifo, x))
  }

  lemma ChosenQueued(t: Tunables, s: State)
    requires Inv(t, s) && NoBug(s) && (s.readSide.fifo != [] || s.writeSide.fifo != [])
    ensures var id := Chosen(t, s).id; id in Get(s, Of(s.rqs, id).write).fifo
  {
    ChosenDir(t, s);
    Apart(t, s, true);
    Apart(t, s, false);
    if s.readSide.fifo != [] { FirstsIn(s.readSide.fifo); FirstsIn(s.readSide.tree); }
    if s.writeSide.fifo != [] { FirstsIn(s.writeSide.fifo); FirstsIn(s.writeSide.tree); }
  }

  lemma FirstsIn(ids: seq<Id>)
    requires ids != []
    ensures ids[0] in ids
  {
  }

  lemma DispatchTakes(t: Tunables, s: State)
    requires Inv(t, s) && NoBug(s)
    ensures s.readSide.fifo != [] || s.writeSide.fifo != [] ==>
              exists id, w :: Dispatched(s, Dispatch(t, s), id, w)
    ensures NoneQueued(s) ==> Dispatch(t, s).issued == s.issued && NoneQueued(Dispatch(t, s))
  {
    if s.readSide.fifo != [] || s.writeSide.fifo != [] {
      var c := Chosen(t, s);
      var w := Of(s.rqs, c.id).write;
      ChosenQueued(t, s);
      CallEffect(t, s, Dispatch(t, s), c, w);
      DispatchIs(t, s);
      assert Dispatched(s, Dispatch(t, s), c.id, w);
    } else {
      NoneNext(t, s);
    }
  }

  lemma AddNothingLost(t: Tunables, s: State, id: Id, w: bool, sector: nat, len: nat)
    requires Inv(t, s) && id !in s.rqs
    ensures var s' := AddRequest(t, s, id, w, sector, len);
            NothingLost(s, s') && LastIn(Get(s', w), id)
  {
    var s' := AddRequest(t, s, id, w, sector, len);
    forall x, v | x in Get(s, v).fifo ensures x in Get(s', v).fifo || x in s'.issued {
      Known(t, s, v, x);
      AddLeaves(t, s, s', id, w, sector, len, v, x);
    }
    InsertedIn(Registered(t, s, id, w, sector, len), id);
  }

  lemma InsertedIn(s: State, id: Id)
    ensures id in Get(AddRqRb(s, id), Of(s.rqs, id).write).tree
  {
    var w := Of(s.rqs, id).write;
    match AliasOf(s.rqs, Get(s, w).tree, Of(s.rqs, id).sector)
    case None => InsertedHas(s.rqs, Get(s, w).tree, id);
    case Some(alias) => InsertedHas(s.rqs, Get(MoveRequest(s, alias), w).tree, id);
  }

  lemma FrontMergeNothingLost(s: State, id: Id, sector: nat, len: nat)
    ensures NothingLost(s, FrontMerge(s, id, sector, len))
  {
    var off, s' := TakeOff(s, id).(rqs := Resized(s.rqs, id, sector, len)), FrontMerge(s, id, sector, len);
    forall x, v | x in Get(s, v).fifo ensures x in Get(s', v).fifo || x in s'.issued {
      AddRbLeaves(off, id, v, x);
    }
  }

  lemma JoinNothingLost(t: Tunables, s: State, id: Id, next: Id)
    requires Inv(t, s) && Enabled(s, Join(id, next))
    ensures var w := Of(s.rqs, id).write; OnlyLost(Get(s, w).fifo, Get(MergedRequests(s, id, next), w).fifo, next)
  {
    var w := Of(s.rqs, id).write;
    Apart(t, s, w);
    forall x
      ensures x in Joined(s.rqs, Get(s, w), id, next).fifo <==> x in Get(s, w).fifo && x != next
      ensures x in Get(s, w).fifo && x != next ==>
                Pos(Joined(s.rqs, Get(s, w), id, next).fifo, x) <= Pos(Get(s, w).fifo, x)
    {
      JoinPlaces(s.rqs, Get(s, w), id, next, x);
    }
  }

  /** A request just made is in neither the tree nor the fifo. */
  lemma NewHole(t: Tunables, s: State, s': State, id: Id, w: bool)
    requires Inv(t, s) && id !in s.rqs && s' == s.(rqs := s'.rqs)
    requires forall x :: x in s.rqs ==> x in s'.rqs && s'.rqs[x] == s.rqs[x]
    ensures HoleInv(t, s', w, Some(id))
  {
    hide SideInv;
    Unqueued(t, s, w, id);
    Unqueued(t, s, !w, id);
    Apart(t, s, w);
    OtherSide(s.rqs, s'.rqs, Get(s, w), w, s.now + Expiry(t, w), id);
    OtherSide(s.rqs, s'.rqs, Get(s, !w), !w, s.now + Expiry(t, !w), id);
    EmptyHole(s.rqs, s'.rqs, Get(s, w), w, s.now + Expiry(t, w), id);
    Together(t, s', w, Some(id));
  }

  lemma Unqueued(t: Tunables, s: State, w: bool, id: Id)
    requires Inv(t, s) && id !in s.rqs
    ensures id !in Get(s, w).fifo
  {
    Apart(t, s, w);
  }

  lemma EmptyHole(rqs: Requests, rqs': Requests, side: Side, w: bool, h: int, id: Id)
    requires SideInv(rqs, side, w, h, None) && id !in rqs && SideInv(rqs', side, w, h, None)
    ensures SideInv(rqs', side, w, h, Some(id))
  {
  }

  /** Dispatching the request at the same sector keeps the invariant and makes room. */
  lemma AliasMoved(t: Tunables, s: State, id: Id, alias: Id)
    requires HoleInv(t, s, Of(s.rqs, id).write, Some(id))
    requires AliasOf(s.rqs, Get(s, Of(s.rqs, id).write).tree, Of(s.rqs, id).sector) == Some(alias)
    ensures HoleInv(t, MoveRequest(s, alias), Of(s.rqs, id).write, Some(id))
    ensures AliasOf(s.rqs, Get(MoveRequest(s, alias), Of(s.rqs, id).write).tree, Of(s.rqs, id).sector) == None
  {
    var w := Of(s.rqs, id).write;
    var tree := Get(s, w).tree;
    assert alias in tree && alias in Get(s, w).fifo && alias != id;
    MoveKeeps(t, s, w, Some(id), alias);
    OneAlias(s.rqs, tree, Of(s.rqs, id).sector);
  }
}
