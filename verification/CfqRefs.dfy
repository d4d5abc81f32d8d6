/**
 The references to CFQ's queues.  A queue is held by the slots of I/O contexts, by the slots
 for asynchronous queues of each priority, and by the requests allocated on it; its count is
 the number of these, and it is freed when the last of them lets go.
 */
module CfqRefs {
  import opened Lists

  type QId = nat

  /** Everything that may point to a queue, and holds a reference when it does.  `Local` is the
      pointer a function has in hand between taking a reference and storing it. */
  datatype Holder =
    | SyncSlot(cic: int)
    | AsyncSlot(cic: int)
    | PrioSlot(prio: nat)
    | OfRequest(id: int, write: bool)
    | Local

  type Pointers = map<Holder, QId>

  const IOPRIO_BE_NR: nat := 8

  function Holding(p: Pointers, q: QId): (hs: set<Holder>) {
    set h | h in p && p[h] == q
  }

  /** The requests allocated on a queue. */
  function Requests(p: Pointers, q: QId, write: bool): (hs: set<Holder>) {
    set h | h in p && p[h] == q && h.OfRequest? && h.write == write
  }

  /** What the kernel keeps of a queue: its reference count, the numbers of requests allocated
      on it, the requests in its tree, and whether it waits for service. */
  datatype Queue = Queue(ref: nat, readRqs: nat, writeRqs: nat, queued: set<int>, onRr: bool)

  predicate Owns(p: Pointers, q: QId, id: int) {
    exists w :: OfRequest(id, w) in p && p[OfRequest(id, w)] == q
  }

  /** The counts of one queue are right, what is in its tree is allocated on it, and it waits for
      service just when there is anything. */
  ghost predicate Balanced(p: Pointers, q: QId, queue: Queue) {
    && queue.ref == |Holding(p, q)|
    && queue.readRqs == |Requests(p, q, false)| && queue.writeRqs == |Requests(p, q, true)|
    && (queue.onRr <==> queue.queued != {})
    && forall id :: id in queue.queued ==> Owns(p, q, id)
  }

  lemma Pinned(p: Pointers, h: Holder, q: QId, x: QId)
    requires h !in p
    ensures Holding(p[h := q], x) == Holding(p, x) + (if x == q then {h} else {})
    ensures |Holding(p[h := q], x)| == |Holding(p, x)| + (if x == q then 1 else 0)
  {
    assert h !in Holding(p, x);
  }

  lemma PinnedRequests(p: Pointers, h: Holder, q: QId, x: QId, w: bool)
    requires h !in p
    ensures |Requests(p[h := q], x, w)| == |Requests(p, x, w)| + (if x == q && h.OfRequest? &&
            h.write == w then 1 else 0)
  {
    var was, now := Requests(p, x, w), Requests(p[h := q], x, w);
    RequestsPinned(p, h, q, x, w);
    assert h !in was;
    hide Requests;
    assert now == was + {h} || now == was;
  }

  lemma RequestsPinned(p: Pointers, h: Holder, q: QId, x: QId, w: bool)
    requires h !in p
    ensures Requests(p[h := q], x, w) == Requests(p, x, w) + (if x == q && h.OfRequest? &&
            h.write == w then {h} else {})
  {
  }

  lemma Dropped(p: Pointers, h: Holder, x: QId)
    requires h in p
    ensures |Holding(p - {h}, x)| == |Holding(p, x)| - (if x == p[h] then 1 else 0)
    ensures x == p[h] ==> |Holding(p, x)| > 0
  {
    assert Holding(p - {h}, x) == Holding(p, x) - (if x == p[h] then {h} else {});
    if x == p[h] { assert h in Holding(p, x); }
  }

  lemma DroppedRequests(p: Pointers, h: Holder, x: QId, w: bool)
    requires h in p
    ensures |Requests(p - {h}, x, w)| == |Requests(p, x, w)| - (if x == p[h] && h.OfRequest? &&
            h.write == w then 1 else 0)
    ensures x == p[h] && h.OfRequest? && h.write == w ==> |Requests(p, x, w)| > 0
  {
    var mine := x == p[h] && h.OfRequest? && h.write == w;
    assert Requests(p - {h}, x, w) == Requests(p, x, w) - (if mine then {h} else {});
    if mine { assert h in Requests(p, x, w); }
  }

  /** Taking a reference to a queue. */
  lemma PinKeeps(p: Pointers, h: Holder, q: QId, x: QId, queue: Queue)
    requires h !in p && Balanced(p, x, queue)
    ensures var w := h.OfRequest? && h.write;
            Balanced(p[h := q], x,
                     if x != q then queue
                     else queue.(ref := queue.ref + 1, readRqs := queue.readRqs + (if h.OfRequest? && !w then 1 else 0),
                                 writeRqs := queue.writeRqs + (if w then 1 else 0)))
  {
    Pinned(p, h, q, x);
    PinnedRequests(p, h, q, x, true);
    PinnedRequests(p, h, q, x, false);
    hide Holding, Requests;
    forall id | id in queue.queued ensures Owns(p[h := q], x, id) {
      var w :| OfRequest(id, w) in p && p[OfRequest(id, w)] == x;
      assert OfRequest(id, w) in p[h := q] && p[h := q][OfRequest(id, w)] == x;
    }
  }

  /** Letting go of one; a request does so only when it is no longer in the tree. */
  lemma DropKeeps(p: Pointers, h: Holder, x: QId, queue: Queue)
    requires h in p && Balanced(p, x, queue)
    requires h.OfRequest? && p[h] == x ==> h.id !in queue.queued
    ensures p[h] == x ==> queue.ref > 0
    ensures p[h] == x && h.OfRequest? ==> (if h.write then queue.writeRqs else queue.readRqs) > 0
    ensures p[h] != x ==> Balanced(p - {h}, x, queue)
    ensures p[h] == x ==>
              var w := h.OfRequest? && h.write;
              var left := queue.(ref := queue.ref - 1, readRqs := queue.readRqs - (if h.OfRequest? && !w then 1 else 0),
                                 writeRqs := queue.writeRqs - (if w then 1 else 0));
              Balanced(p - {h}, x, left)
  {
    Dropped(p, h, x);
    DroppedRequests(p, h, x, true);
    DroppedRequests(p, h, x, false);
    hide Holding, Requests;
    forall id | id in queue.queued ensures Owns(p - {h}, x, id) {
      var w :| OfRequest(id, w) in p && p[OfRequest(id, w)] == x;
      assert OfRequest(id, w) in p - {h} && (p - {h})[OfRequest(id, w)] == x;
    }
  }

  lemma DropAll(p: Pointers, h: Holder, queues: map<QId, Queue>)
    requires h in p && p[h] in queues && (forall x :: x in queues ==> Balanced(p, x, queues[x]))
    requires h.OfRequest? ==> h.id !in queues[p[h]].queued
    ensures forall x :: x in queues && x != p[h] ==> Balanced(p - {h}, x, queues[x])
    ensures var queue := queues[p[h]];
            if h.OfRequest? then MayLetGo(queue, h.write) && Balanced(p - {h}, p[h], LetGo(queue, h.write))
            else queue.ref > 0 && Balanced(p - {h}, p[h], queue.(ref := queue.ref - 1))
  {
    forall x | x in queues && x != p[h] ensures Balanced(p - {h}, x, queues[x]) {
      DropKeeps(p, h, x, queues[x]);
    }
    DropKeeps(p, h, p[h], queues[p[h]]);
    hide Balanced;
  }

  /** Nobody points to a queue: then no request is allocated on it, none is in its tree, and it
      does not wait for service. */
  lemma UnheldIsIdle(p: Pointers, q: QId, queue: Queue)
    requires Balanced(p, q, queue) && queue.ref == 0
    ensures Idle(queue)
    ensures forall h :: h in p ==> p[h] != q
  {
    assert Holding(p, q) == {};
    assert forall h :: h in p ==> h !in Holding(p, q);
    assert Requests(p, q, false) == {} && Requests(p, q, true) == {};
    forall id ensures id !in queue.queued { OwnerHolds(p, q, id); }
  }

  lemma OwnerHolds(p: Pointers, q: QId, id: int)
    ensures Owns(p, q, id) ==> Holding(p, q) != {}
  {
    if Owns(p, q, id) {
      var w :| OfRequest(id, w) in p && p[OfRequest(id, w)] == q;
      assert OfRequest(id, w) in Holding(p, q);
    }
  }

  class References {
    var queues: map<QId, Queue>
    var pointer: Pointers
    var active: Option<QId>
    var nextQueue: QId                  // the next queue the allocator gives

    /** Every pointer is to a queue that exists, whose count is the number of its pointers. */
    ghost predicate Conserved()
      reads this
    {
      && (forall h :: h in pointer ==> pointer[h] in queues)
      && (forall q :: q in queues ==> Balanced(pointer, q, queues[q]) && q < nextQueue)
      && (active.Some? ==> active.value in queues)
    }

    /** Between calls, moreover, nobody has a pointer in hand and no queue is left unheld. */
    ghost predicate Valid()
      reads this
    {
      Conserved() && Local !in pointer && forall q :: q in queues ==> queues[q].ref > 0
    }

    constructor ()
      ensures Valid() && queues == map[] && pointer == map[]
    {
      queues, pointer, active, nextQueue := map[], map[], None, 0;
    }

    /** Allocate a queue; nobody points to it yet. */
    method Alloc() returns (q: QId)
      requires Conserved()
      modifies this`queues, this`nextQueue
      ensures Conserved() && q !in old(queues) && queues == old(queues)[q := Queue(0, 0, 0, {}, false)]
    {
      q := nextQueue;
      assert Holding(pointer, q) == {} && Requests(pointer, q, true) == {} && Requests(pointer, q, false) == {};
      queues := queues[q := Queue(0, 0, 0, {}, false)];
      nextQueue := nextQueue + 1;
    }

    /** Store a pointer, with the reference that goes with it. */
    method Pin(h: Holder, q: QId)
      requires Conserved() && h !in pointer && q in queues && !h.OfRequest?
      modifies this`queues, this`pointer
      ensures Conserved() && pointer == old(pointer)[h := q]
      ensures queues == old(queues)[q := old(queues)[q].(ref := old(queues)[q].ref + 1)]
    {
      forall x | x in queues ensures x != q ==> Balanced(pointer[h := q], x, queues[x])
        ensures x == q ==> Balanced(pointer[h := q], x, queues[x].(ref := queues[x].ref + 1))
      {
        PinKeeps(pointer, h, q, x, queues[x]);
      }
      hide Balanced;
      queues := queues[q := queues[q].(ref := queues[q].ref + 1)];
      pointer := pointer[h := q];
    }

    /** cfq_put_queue, for the pointer h: none of its BUG_ONs fires, and the queue goes when
        this was the last pointer to it. */
    method PutQueue(h: Holder)
      requires Conserved() && h in pointer && !h.OfRequest? && forall q :: q in queues ==> queues[q].ref > 0
      modifies this`queues, this`pointer, this`active
      ensures Conserved() && pointer == old(pointer) - {h} && forall q :: q in queues ==> queues[q].ref > 0
      ensures queues.Keys == old(queues).Keys || queues.Keys == old(queues).Keys - {old(pointer)[h]}
      ensures old(pointer)[h] !in queues ==> Idle(old(queues)[old(pointer)[h]])
    {
      hide Balanced;
      var q := pointer[h];
      DropAll(pointer, h, queues);
      queues := queues[q := queues[q].(ref := queues[q].ref - 1)];
      pointer := pointer - {h};
      Release(q);
    }

    /** The end of cfq_put_queue. */
    method Release(q: QId)
      requires Conserved() && q in queues && forall x :: x in queues && x != q ==> queues[x].ref > 0
      modifies this`queues, this`active
      ensures Conserved() && forall x :: x in queues ==> queues[x].ref > 0
      ensures queues == if old(queues)[q].ref == 0 then old(queues) - {q} else old(queues)
      ensures old(queues)[q].ref == 0 ==> Idle(old(queues)[q])
    {
      if queues[q].ref == 0 {
        UnheldIsIdle(pointer, q, queues[q]);
        if active == Some(q) { active := None; }
        queues := queues - {q};
      }
    }

    /** cfq_get_queue: the queue for a context, with a reference for the caller; an asynchronous
        queue is shared by priority. */
    method GetQueue(sync: bool, cic: int, prio: nat) returns (q: QId)
      requires Valid()
      modifies this`queues, this`pointer, this`nextQueue
      ensures Conserved() && q in queues && forall x :: x in queues ==> queues[x].ref > 0
      ensures pointer == (if sync || PrioSlot(prio) in old(pointer) then old(pointer)
                          else old(pointer)[PrioSlot(prio) := q])[Local := q]
      ensures queues.Keys == old(queues).Keys + {q}
      ensures var slot := if sync then SyncSlot(cic) else AsyncSlot(cic);
              if !sync && PrioSlot(prio) in old(pointer) then q == old(pointer)[PrioSlot(prio)]
              else if slot in old(pointer) then q == old(pointer)[slot]
              else q !in old(queues)
    {
      hide Balanced;
      var slot := if sync then SyncSlot(cic) else AsyncSlot(cic);
      if !sync && PrioSlot(prio) in pointer {
        q := pointer[PrioSlot(prio)];
      } else if slot in pointer {
        q := pointer[slot];
      } else {
        q := Alloc();
      }
      if !sync && PrioSlot(prio) !in pointer { Pin(PrioSlot(prio), q); }
      Pin(Local, q);
    }

    /** The pointer in hand is stored in a slot that is empty. */
    method Store(slot: Holder)
      requires Conserved() && Local in pointer && slot !in pointer && slot != Local && !slot.OfRequest?
      modifies this`pointer
      ensures Conserved() && pointer == (old(pointer) - {Local})[slot := old(pointer)[Local]]
    {
      var q := pointer[Local];
      forall x | x in queues ensures Balanced((pointer - {Local})[slot := q], x, queues[x]) {
        DropKeeps(pointer, Local, x, queues[x]);
        PinKeeps(pointer - {Local}, slot, q, x,
                 if x == q then queues[x].(ref := queues[x].ref - 1) else queues[x]);
      }
      pointer := (pointer - {Local})[slot := q];
    }

    /** The pointer in hand and the one in a slot change places. */
    method Swap(slot: Holder)
      requires Conserved() && Local in pointer && slot in pointer && slot != Local && !slot.OfRequest?
      modifies this`pointer
      ensures Conserved() && pointer == old(pointer)[slot := old(pointer)[Local]][Local := old(pointer)[slot]]
    {
      ghost var p := pointer[slot := pointer[Local]][Local := pointer[slot]];
      forall x | x in queues ensures Balanced(p, x, queues[x]) {
        SwapKeeps(pointer, p, slot, x, queues[x]);
      }
      pointer := pointer[slot := pointer[Local]][Local := pointer[slot]];
    }

    /** cfq_set_request: the request gets the queue of its context. */
    method SetRequest(id: int, write: bool, sync: bool, cic: int, prio: nat)
      requires Valid() && OfRequest(id, true) !in pointer && OfRequest(id, false) !in pointer
      modifies this`queues, this`pointer, this`nextQueue
      ensures Valid() && OfRequest(id, write) in pointer
      ensures var slot := if sync then SyncSlot(cic) else AsyncSlot(cic);
              slot in pointer && pointer[OfRequest(id, write)] == pointer[slot]
      ensures forall h :: h in old(pointer) ==> h in pointer && pointer[h] == old(pointer)[h]
      ensures pointer.Keys <= old(pointer).Keys +
                              {OfRequest(id, write), PrioSlot(prio), if sync then SyncSlot(cic) else AsyncSlot(cic)}
    {
      hide Balanced;
      var slot := if sync then SyncSlot(cic) else AsyncSlot(cic);
      if slot !in pointer {
        var q := GetQueue(sync, cic, prio);
        Store(slot);
      }
      Allocate(id, write, pointer[slot]);
    }

    method Allocate(id: int, write: bool, q: QId)
      requires Valid() && OfRequest(id, true) !in pointer && OfRequest(id, false) !in pointer && q in queues
      modifies this`queues, this`pointer
      ensures Valid() && pointer == old(pointer)[OfRequest(id, write) := q]
    {
      var h := OfRequest(id, write);
      forall x | x in queues ensures x != q ==> Balanced(pointer[h := q], x, queues[x])
        ensures x == q ==> Balanced(pointer[h := q], x, Held(queues[x], write))
      {
        PinKeeps(pointer, h, q, x, queues[x]);
      }
      queues := queues[q := Held(queues[q], write)];
      pointer := pointer[h := q];
    }

    /** cfq_put_request: for a request that is not in the tree any more. */
    method PutRequest(id: int, write: bool)
      requires Valid() && OfRequest(id, write) in pointer && id !in queues[pointer[OfRequest(id, write)]].queued
      modifies this`queues, this`pointer, this`active
      ensures Valid() && pointer == old(pointer) - {OfRequest(id, write)}
      ensures var q := old(pointer)[OfRequest(id, write)];
              q !in queues ==> old(queues)[q].queued == {} && !old(queues)[q].onRr
    {
      hide Balanced;
      var q := pointer[OfRequest(id, write)];
      Unallocate(id, write, q);
      Release(q);
    }

    /** The request no longer counts: the number of them was not 0. */
    method Unallocate(id: int, write: bool, q: QId)
      requires Valid() && OfRequest(id, write) in pointer && q == pointer[OfRequest(id, write)] &&
               id !in queues[q].queued
      modifies this`queues, this`pointer
      ensures Conserved() && pointer == old(pointer) - {OfRequest(id, write)} && queues.Keys == old(queues).Keys
      ensures queues[q].queued == old(queues)[q].queued && queues[q].onRr == old(queues)[q].onRr
      ensures forall x :: x in queues && x != q ==> queues[x].ref > 0
    {
      hide Balanced;
      DropAll(pointer, OfRequest(id, write), queues);
      queues := queues[q := LetGo(queues[q], write)];
      pointer := pointer - {OfRequest(id, write)};
    }

    /** A request goes into the tree of the queue it was allocated on. */
    method Enqueue(id: int, write: bool)
      requires Valid() && OfRequest(id, write) in pointer
      modifies this`queues
      ensures Valid() && queues.Keys == old(queues).Keys
      ensures var q := pointer[OfRequest(id, write)]; id in queues[q].queued && queues[q].onRr
    {
      var q := pointer[OfRequest(id, write)];
      assert Owns(pointer, q, id);
      queues := queues[q := queues[q].(queued := queues[q].queued + {id}, onRr := true)];
      assert id in queues[q].queued;
    }

    /** It leaves the tree, and with the last one the queue leaves the service tree. */
    method Dequeue(q: QId, id: int)
      requires Valid() && q in queues
      modifies this`queues
      ensures Valid() && queues.Keys == old(queues).Keys && id !in queues[q].queued
    {
      var left := queues[q].queued - {id};
      queues := queues[q := queues[q].(queued := left, onRr := left != {})];
    }

    /** changed_ioprio: the context's asynchronous queue becomes that of its new priority. */
    method ChangedIoprio(cic: int, prio: nat)
      requires Valid()
      modifies this`queues, this`pointer, this`active, this`nextQueue
      ensures Valid()
      ensures AsyncSlot(cic) in old(pointer) ==>
                && AsyncSlot(cic) in pointer && PrioSlot(prio) in pointer &&
                   pointer[AsyncSlot(cic)] == pointer[PrioSlot(prio)]
      ensures AsyncSlot(cic) !in old(pointer) ==> pointer == old(pointer)
      ensures forall h :: h in old(pointer) && h != AsyncSlot(cic) ==> h in pointer && pointer[h] == old(pointer)[h]
      ensures pointer.Keys <= old(pointer).Keys + {PrioSlot(prio)}
    {
      hide Balanced, Idle;
      if AsyncSlot(cic) in pointer {
        var q := GetQueue(false, cic, prio);
        Swap(AsyncSlot(cic));
        PutQueue(Local);
      }
    }

    /** cfq_exit_cfqq. */
    method ExitSlot(slot: Holder)
      requires Valid() && !slot.OfRequest? && slot != Local
      modifies this`queues, this`pointer, this`active
      ensures Valid() && pointer == old(pointer) - {slot}
    {
      if slot in pointer {
        if active == Some(pointer[slot]) { active := None; }
        PutQueue(slot);
      } else {
        assert pointer - {slot} == pointer;
      }
    }

    /** __cfq_exit_single_io_context. */
    method ExitContext(cic: int)
      requires Valid()
      modifies this`queues, this`pointer, this`active
      ensures Valid() && pointer == old(pointer) - {AsyncSlot(cic)} - {SyncSlot(cic)}
    {
      ExitSlot(AsyncSlot(cic));
      ExitSlot(SyncSlot(cic));
    }

    /** cfq_exit_queue: afterwards the only queues left are those with requests allocated on
        them, and none leaks. */
    method ExitQueue(cics: seq<int>)
      requires Valid()
      requires forall h :: h in pointer && (h.SyncSlot? || h.AsyncSlot?) ==> h.cic in cics
      requires forall h :: h in pointer && h.PrioSlot? ==> h.prio < IOPRIO_BE_NR
      modifies this`queues, this`pointer, this`active
      ensures Valid() && forall h :: h in pointer <==> h in old(pointer) && h.OfRequest?
      ensures (forall h :: h in old(pointer) ==> !h.OfRequest?) ==> queues == map[]
    {
      hide Balanced;
      active := None;
      var i := 0;
      while i < |cics|
        invariant 0 <= i <= |cics| && Valid()
        invariant forall h :: h in pointer <==>
                                (h in old(pointer) && !((h.SyncSlot? || h.AsyncSlot?) && h.cic in cics[..i]))
      {
        ExitContext(cics[i]);
        assert cics[..i + 1] == cics[..i] + [cics[i]];
        i := i + 1;
      }
      assert cics[..i] == cics;
      i := 0;
      while i < IOPRIO_BE_NR
        invariant 0 <= i <= IOPRIO_BE_NR && Valid()
        invariant forall h :: h in pointer <==> h in old(pointer) && (h.OfRequest? || (h.PrioSlot? && h.prio >= i))
      {
        ExitSlot(PrioSlot(i));
        i := i + 1;
      }
      NoneHeld(pointer, queues);
    }
  }

  predicate Idle(queue: Queue) {
    queue.readRqs == 0 && queue.writeRqs == 0 && queue.queued == {} && !queue.onRr
  }

  function Held(queue: Queue, write: bool): (q: Queue) {
    queue.(ref := queue.ref + 1, readRqs := queue.readRqs + (if write then 0 else 1),
           writeRqs := queue.writeRqs + (if write then 1 else 0))
  }

  predicate MayLetGo(queue: Queue, write: bool) {
    queue.ref > 0 && (if write then queue.writeRqs else queue.readRqs) > 0
  }

  function LetGo(queue: Queue, write: bool): (q: Queue)
    requires MayLetGo(queue, write)
  {
    queue.(ref := queue.ref - 1, readRqs := queue.readRqs - (if write then 0 else 1),
           writeRqs := queue.writeRqs - (if write then 1 else 0))
  }

  lemma SwapKeeps(p: Pointers, p': Pointers, slot: Holder, x: QId, queue: Queue)
    requires Balanced(p, x, queue) && Local in p && slot in p && slot != Local && !slot.OfRequest?
    requires p' == p[slot := p[Local]][Local := p[slot]]
    ensures Balanced(p', x, queue)
  {
    var a, b := p[slot], p[Local];
    var p0 := p - {slot} - {Local};
    DropKeeps(p, slot, x, queue);
    var one := if a == x then queue.(ref := queue.ref - 1) else queue;
    DropKeeps(p - {slot}, Local, x, one);
    var two := if b == x then one.(ref := one.ref - 1) else one;
    PinKeeps(p0, slot, b, x, two);
    var three := if b == x then two.(ref := two.ref + 1) else two;
    PinKeeps(p0[slot := b], Local, a, x, three);
    assert p' == p0[slot := b][Local := a];
  }

  /** No pointers, no queues. */
  lemma NoneHeld(p: Pointers, queues: map<QId, Queue>)
    requires forall q :: q in queues ==> Balanced(p, q, queues[q]) && queues[q].ref > 0
    ensures p == map[] ==> queues == map[]
  {
    forall q | q in queues ensures p != map[] { NoPointers(p, q); }
  }

  lemma NoPointers(p: Pointers, q: QId)
    ensures p == map[] ==> |Holding(p, q)| == 0
  {
    if p == map[] { assert Holding(p, q) == {}; }
  }
}
