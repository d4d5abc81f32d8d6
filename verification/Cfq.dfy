/**
 The CFQ I/O scheduler: queues of requests, and the tree of the queues that wait for service
 with its cached leftmost node.  Every function of the interface finds and leaves the queues
 consistent, and a forced dispatch ends with nothing queued.
 */
module Cfq {
  import opened Lists
  import opened SectorTree
  import opened CfqQueue
  import SeekChoice

  /** The service tree, in whatever shape rebalancing has given it. */
  datatype RbTree = Leaf | Node(left: RbTree, queue: QId, right: RbTree)

  function InOrder(t: RbTree): (s: seq<QId>) {
    match t
    case Leaf => []
    case Node(l, q, r) => InOrder(l) + [q] + InOrder(r)
  }

  /** Does queue a go to the left of queue b?  Real-time queues first, idle ones last, and then
      by the time of service. */
  predicate GoesLeft(a: Queue, key: int, b: Queue) {
    if a.rt != b.rt then a.rt
    else if a.idle != b.idle then b.idle
    else key < b.key
  }

  /** The service tree is sorted in the order the queues are served in. */
  predicate InServiceOrder(queues: map<QId, Queue>, service: seq<QId>) {
    forall i, j :: 0 <= i < j < |service| && service[i] in queues && service[j] in queues ==>
                     !GoesLeft(queues[service[j]], queues[service[j]].key, queues[service[i]])
  }

  /** Outside lo..hi every queue is on its right side of a queue to be added. */
  predicate Between(queues: map<QId, Queue>, service: seq<QId>, lo: nat, hi: nat, q: Queue, key: int) {
    && (forall i :: 0 <= i < lo && i < |service| && service[i] in queues ==> !GoesLeft(q, key, queues[service[i]]))
    && (forall i :: hi <= i < |service| && service[i] in queues ==> GoesLeft(q, key, queues[service[i]]))
  }

  /** The leftmost node is not cached, or cached right. */
  predicate LeftOk(service: seq<QId>, left: Option<QId>) {
    left == None || (service != [] && left == Some(service[0]))
  }

  class CfqData {
    const shape: seq<QId> -> RbTree   // how a sequence of queues is balanced
    var table: Table
    var queues: map<QId, Queue>
    var service: seq<QId>             // the service tree, in order
    var left: Option<QId>
    var busyQueues: nat
    var active: Option<QId>
    var head: SeekChoice.Head
    var out: seq<Id>                  // what has been dispatched

    /** The queues that wait for service are in the tree, once each, and counted. */
    ghost predicate Rr()
      reads this
    {
      && Distinct(service) && busyQueues == |service| && LeftOk(service, left)
      && (forall q :: q in service ==> q in queues)
      && (forall q :: q in queues ==> (queues[q].onRr <==> q in service))
      && (active.Some? ==> active.value in queues)
      && (forall s: seq<QId> :: InOrder(shape(s)) == s)
    }

    /** Every queue but one is consistent. */
    ghost predicate Others(but: Option<QId>)
      reads this
    {
      forall q :: q in queues && Some(q) != but ==> QueueOk(table, q, queues[q])
    }

    ghost predicate Valid()
      reads this
    {
      Rr() && Others(None)
    }

    /** The queues wait in the order they are served in.  Every function but a change of class
        keeps this. */
    ghost predicate Ordered()
      reads this
    {
      InServiceOrder(queues, service)
    }

    /** The requests that wait. */
    ghost function Waiting(): (ids: set<Id>)
      reads this
    {
      WaitingIn(table, queues)
    }

    constructor (shape: seq<QId> -> RbTree, head: SeekChoice.Head)
      requires forall s: seq<QId> :: InOrder(shape(s)) == s
      ensures Valid() && Waiting() == {} && out == []
    {
      this.shape, this.head := shape, head;
      table, queues, service, left, busyQueues, active, out := Table(map[], map[]), map[], [], None, 0, None, [];
    }

    // ---- the service tree ----

    /** cfq_rb_first. */
    method RbFirst() returns (n: Option<QId>)
      requires LeftOk(service, left)
      modifies this`left
      ensures LeftOk(service, left)
      ensures n == if service == [] then None else Some(service[0])
    {
      if left == None && service != [] { left := Some(service[0]); }
      return left;
    }

    /** cfq_rb_erase. */
    method RbErase(q: QId)
      requires q in service && Distinct(service) && LeftOk(service, left)
      modifies this`service, this`left
      ensures service == Without(old(service), q) && Distinct(service) && |service| == |old(service)| - 1
      ensures LeftOk(service, left) && (old(Ordered()) ==> Ordered())
    {
      if InServiceOrder(queues, service) { OrderWithout(queues, service, q); }
      if left == Some(q) { left := None; }
      WithoutDistinct(service, q);
      if left.Some? { assert Without(service, q)[0] == service[0]; }
      service := Without(service, q);
    }

    /** The descent in cfq_service_tree_add: how many queues come before, and whether it only
        ever went left. */
    method Descend(q: Queue, key: int) returns (pos: nat, leftmost: bool)
      requires forall s: seq<QId> :: InOrder(shape(s)) == s
      requires forall x :: x in service ==> x in queues
      ensures pos <= |service| && (leftmost <==> pos == 0)
      ensures Ordered() ==> Between(queues, service, pos, pos, q, key)
    {
      hide InOrder, GoesLeft, InServiceOrder, Between;
      var p := shape(service);
      ghost var hi := |service|;
      pos, leftmost := 0, true;
      assert service[0..hi] == service;
      AllBetween(queues, service, q, key);
      while p.Node?
        invariant pos <= hi <= |service| && InOrder(p) == service[pos..hi]
        invariant leftmost <==> pos == 0
        invariant Ordered() ==> Between(queues, service, pos, hi, q, key)
        decreases p
      {
        AtNode(service, pos, hi, p);
        ghost var m := pos + Size(p.left);
        assert service[m] in service;
        if Ordered() { Narrow(queues, service, pos, hi, m, q, key); }
        if GoesLeft(q, key, queues[p.queue]) {
          hi := m;
          p := p.left;
        } else {
          leftmost := false;
          pos := pos + Size(p.left) + 1;
          p := p.right;
        }
      }
      InOrderLeaf(p);
    }

    /** cfq_service_tree_add, for a time of service worked out elsewhere; 0 puts a queue in
        front of the others of its class. */
    method ServiceTreeAdd(q: QId, key: int)
      requires q in queues && Distinct(service) && LeftOk(service, left)
      requires forall s: seq<QId> :: InOrder(shape(s)) == s
      requires forall x :: x in service ==> x in queues
      modifies this`service, this`left, this`queues
      ensures Distinct(service) && LeftOk(service, left)
      ensures forall x :: x in service <==> x in old(service) || x == q
      ensures |service| == |old(service)| + (if q in old(service) then 0 else 1)
      ensures queues == old(queues)[q := old(queues)[q].(key := key)] && (old(Ordered()) ==> Ordered())
    {
      hide InServiceOrder, Between, GoesLeft;
      if q in service {
        if key == queues[q].key { return; }
        WithoutAll(service, q);
        RbErase(q);
      }
      var pos, leftmost := Descend(queues[q], key);
      if Ordered() { OrderInsert(queues, service, pos, q, key); }
      InsertDistinct(service, pos, q);
      InsertHas(service, pos, q);
      if leftmost { left := Some(q); }
      queues := queues[q := queues[q].(key := key)];
      service := service[..pos] + [q] + service[pos..];
    }

    /** cfq_add_cfqq_rr, which resorts the queue it has just marked. */
    method AddRr(q: QId, key: int)
      requires Rr() && q in queues && !queues[q].onRr
      modifies this`service, this`left, this`queues, this`busyQueues
      ensures Rr() && queues == old(queues)[q := old(queues)[q].(key := key, onRr := true)]
      ensures old(Ordered()) ==> Ordered()
    {
      queues := queues[q := queues[q].(onRr := true)];
      busyQueues := busyQueues + 1;
      ServiceTreeAdd(q, key);
    }

    /** cfq_del_cfqq_rr: the count cannot be 0. */
    method DelRr(q: QId)
      requires Rr() && q in queues && queues[q].onRr
      modifies this`service, this`left, this`queues, this`busyQueues
      ensures Rr() && queues == old(queues)[q := old(queues)[q].(onRr := false)]
      ensures old(Ordered()) ==> Ordered()
      ensures |service| == |old(service)| - 1 && busyQueues == old(busyQueues) - 1
    {
      WithoutAll(service, q);
      queues := queues[q := queues[q].(onRr := false)];
      RbErase(q);
      busyQueues := busyQueues - 1;
    }

    /** cfq_slice_expired: the active queue is put where its next turn is. */
    method SliceExpired(key: int)
      requires Valid()
      modifies this`service, this`left, this`queues, this`active
      ensures Valid() && active == None && Waiting() == old(Waiting()) && busyQueues == old(busyQueues)
      ensures old(Ordered()) ==> Ordered()
    {
      hide InServiceOrder;
      if active.Some? {
        var q := active.value;
        if queues[q].onRr { Resort(q, key); }
        active := None;
      }
    }

    method Resort(q: QId, key: int)
      requires Valid() && q in queues && queues[q].onRr
      modifies this`service, this`left, this`queues
      ensures Valid() && Waiting() == old(Waiting()) && queues.Keys == old(queues).Keys
      ensures old(Ordered()) ==> Ordered()
    {
      hide InServiceOrder;
      ServiceTreeAdd(q, key);
    }

    /** cfq_preempt_queue. */
    method PreemptQueue(q: QId, key: int)
      requires Valid() && q in queues && queues[q].onRr
      modifies this`service, this`left, this`queues, this`active
      ensures Valid() && active == None && Waiting() == old(Waiting())
      ensures old(Ordered()) ==> Ordered()
    {
      hide InServiceOrder;
      SliceExpired(key);
      if q in queues && queues[q].onRr { Resort(q, 0); }
    }

    // ---- one request ----

    /** cfq_remove_request: a queue that has nothing left no longer waits for service. */
    method RemoveRequest(id: Id, ghost hole: Option<Id>)
      requires Rr() && id in table.flags
      requires var q := table.flags[id].queue;
               && q in queues && TreeOk(table, q, queues[q], hole) && id in queues[q].tree
               && (queues[q].tree != [] ==> queues[q].onRr)
      modifies this`service, this`left, this`queues, this`busyQueues
      ensures Rr() && queues.Keys == old(queues).Keys
      ensures forall x :: x in queues && x != table.flags[id].queue ==> queues[x] == old(queues)[x]
      ensures var q, was := table.flags[id].queue, old(queues)[table.flags[id].queue];
              && was.tree != [] && was.queuedSync >= One(table, Some(id), true) &&
                 was.queuedAsync >= One(table, Some(id), false)
              && queues[q] == Removed(head, table, was, id).(onRr := Without(was.tree, id) != [])
              && |service| == |old(service)| - (if Without(was.tree, id) == [] then 1 else 0)
      ensures old(Ordered()) ==> Ordered()
    {
      hide InServiceOrder;
      var q := table.flags[id].queue;
      RemovedCounts(table, q, queues[q], hole, id);
      queues := queues[q := Removed(head, table, queues[q], id)];
      OrderFrame(old(queues), queues, service);
      if queues[q].onRr && queues[q].tree == [] { DelRr(q); }
    }

    /** cfq_dispatch_insert. */
    method DispatchInsert(id: Id)
      requires Valid() && id in Waiting()
      modifies this`service, this`left, this`queues, this`busyQueues, this`out
      ensures Valid() && queues.Keys == old(queues).Keys && out == old(out) + [id]
      ensures Waiting() == old(Waiting()) - {id}
      ensures var q := table.flags[id].queue;
              && queues[q].tree == Without(old(queues)[q].tree, id) && |queues[q].tree| < |old(queues)[q].tree|
              && |service| == |old(service)| - (if queues[q].tree == [] then 1 else 0)
      ensures old(Ordered()) ==> Ordered()
    {
      hide InServiceOrder;
      Forget(id);
      out := out + [id];
    }

    /** cfq_add_rq_rb, for a request that has been counted: requests that start at the same
        sector are dispatched first. */
    method AddRqRb(id: Id, key: int)
      requires Rr() && id in table.flags && id in table.rqs
      requires var q := table.flags[id].queue;
               && q in queues && TreeOk(table, q, queues[q], Some(id)) && SameBut(queues[q], Some(id))
               && (queues[q].tree != [] ==> queues[q].onRr) && Others(Some(q))
      modifies this`service, this`left, this`queues, this`busyQueues, this`out
      ensures Rr() && queues.Keys == old(queues).Keys
      ensures var q := table.flags[id].queue;
              && TreeOk(table, q, queues[q], None) && SameBut(queues[q], Some(id)) && queues[q].onRr
              && id in queues[q].tree && (id in queues[q].fifo <==> id in old(queues)[q].fifo) && Others(Some(q))
      ensures AddedTo(old(queues), queues, table.flags[id].queue, id, old(out), out)
      ensures old(Ordered()) ==> Ordered()
    {
      hide TreeOk, SameBut, QueueOk, Rr, LeftFor, AddedTo, InServiceOrder;
      var q, sector := table.flags[id].queue, Of(table.rqs, id).sector;
      var alias := AliasOf(table.rqs, queues[q].tree, sector);
      NothingLeft(queues, q, out);
      while alias.Some?
        invariant Rr() && queues.Keys == old(queues).Keys
        invariant TreeOk(table, q, queues[q], Some(id)) && SameBut(queues[q], Some(id)) && Others(Some(q))
        invariant queues[q].tree != [] ==> queues[q].onRr
        invariant id in queues[q].fifo <==> id in old(queues)[q].fifo
        invariant alias == AliasOf(table.rqs, queues[q].tree, sector)
        invariant old(Ordered()) ==> Ordered()
        invariant LeftFor(old(queues), queues, q, old(out), out)
        decreases |queues[q].tree|
      {
        AliasKnown(table, q, queues[q], Some(id), alias.value);
        ghost var mid, sent := queues, out;
        DispatchAlias(alias.value, id, q);
        LeftMore(old(queues), mid, queues, q, old(out), sent, alias.value);
        alias := AliasOf(table.rqs, queues[q].tree, sector);
      }
      ghost var mid := queues;
      InsertRb(id, q, key);
      LeftAndAdded(old(queues), mid, queues, q, id, old(out), out);
    }

    method DispatchAlias(alias: Id, ghost id: Id, ghost q: QId)
      requires Rr() && alias in table.flags && q == table.flags[alias].queue && q in queues
      requires TreeOk(table, q, queues[q], Some(id)) && SameBut(queues[q], Some(id)) && alias in queues[q].tree
      requires queues[q].tree != [] ==> queues[q].onRr
      requires Others(Some(q))
      modifies this`service, this`left, this`queues, this`busyQueues, this`out
      ensures Rr() && queues.Keys == old(queues).Keys && Others(Some(q))
      ensures TreeOk(table, q, queues[q], Some(id)) && SameBut(queues[q], Some(id))
      ensures queues[q].tree != [] ==> queues[q].onRr
      ensures queues[q].tree == Without(old(queues)[q].tree, alias) && |queues[q].tree| < |old(queues)[q].tree|
      ensures id in queues[q].fifo <==> id in old(queues)[q].fifo
      ensures forall x :: x in queues && x != q ==> queues[x] == old(queues)[x]
      ensures out == old(out) + [alias]
      ensures old(Ordered()) ==> Ordered()
    {
      hide InServiceOrder;
      ghost var was := queues[q];
      RemoveRequest(alias, Some(id));
      RemovedCounts(table, q, was, Some(id), alias);
      RemovedKeeps(head, table, q, was, Some(id), alias);
      RemovedSame(head, table, was, Some(id), alias);
      SortedDistinct(table.rqs, was.tree);
      WithoutDistinct(was.tree, alias);
      WithoutHas(was.fifo, alias, id);
      out := out + [alias];
    }

    method InsertRb(id: Id, q: QId, key: int)
      requires Rr() && id in table.flags && id in table.rqs && q == table.flags[id].queue && q in queues
      requires TreeOk(table, q, queues[q], Some(id)) && SameBut(queues[q], Some(id)) && Others(Some(q))
      requires AliasOf(table.rqs, queues[q].tree, Of(table.rqs, id).sector) == None
      modifies this`service, this`left, this`queues, this`busyQueues
      ensures Rr() && queues.Keys == old(queues).Keys && Others(Some(q))
      ensures TreeOk(table, q, queues[q], None) && SameBut(queues[q], Some(id)) && queues[q].onRr
      ensures queues[q].fifo == old(queues)[q].fifo
      ensures forall x :: x in queues[q].tree <==> x in old(queues)[q].tree || x == id
      ensures forall x :: x in queues && x != q ==> queues[x] == old(queues)[x]
      ensures old(Ordered()) ==> Ordered()
    {
      hide Insert, Pick, Sorted, Count, InServiceOrder;
      InsertedKeeps(head, table, q, queues[q], id);
      InsertedSame(head, table, queues[q], id);
      InsertedHas(table.rqs, queues[q].tree, id);
      queues := queues[q := Inserted(head, table, queues[q], id)];
      OrderFrame(old(queues), queues, service);
      if !queues[q].onRr { AddRr(q, key); }
    }

    // ---- the interface ----

    /** A queue that was just set up. */
    method NewQueue(q: QId, rt: bool, idle: bool)
      requires Valid() && q !in queues
      modifies this`queues
      ensures Valid() && queues.Keys == old(queues).Keys + {q} && Waiting() == old(Waiting())
      ensures old(Ordered()) ==> Ordered()
    {
      hide InServiceOrder;
      queues := queues[q := Queue([], [], None, 0, 0, false, 0, rt, idle)];
      OrderFrame(old(queues), queues, service);
      assert forall x :: x in Waiting() <==> x in old(Waiting());
    }

    /** cfq_init_prio_data and cfq_prio_boost: a queue may change its class while it waits. */
    method SetClass(q: QId, rt: bool, idle: bool)
      requires Valid() && q in queues
      modifies this`queues
      ensures Valid() && Waiting() == old(Waiting())
      ensures queues == old(queues)[q := old(queues)[q].(rt := rt, idle := idle)]
      ensures forall i: nat :: i < |service| && service[i] == q && old(Ordered()) ==>
                                 (Ordered() <==> StillFits(old(queues), service, i, queues[q]))
      ensures q !in service && old(Ordered()) ==> Ordered()
    {
      hide InServiceOrder, StillFits;
      forall i: nat | i < |service| && service[i] == q && InServiceOrder(queues, service)
        ensures InServiceOrder(queues[q := queues[q].(rt := rt, idle := idle)], service) <==>
                StillFits(queues, service, i, queues[q].(rt := rt, idle := idle))
      {
        ClassChange(queues, service, i, queues[q].(rt := rt, idle := idle));
      }
      queues := queues[q := queues[q].(rt := rt, idle := idle)];
      if q !in service { OrderFrame(old(queues), queues, service); }
    }

    /** A request not known before is counted. */
    method Admit(id: Id, rq: Request, flags: Flags)
      requires Valid() && id !in table.rqs && id !in table.flags && flags.queue in queues
      modifies this`table, this`queues
      ensures table == Table(old(table).rqs[id := rq], old(table).flags[id := flags])
      ensures queues == old(queues)[flags.queue := Counted(table, old(queues)[flags.queue], id)]
      ensures Rr() && Others(Some(flags.queue)) && id !in queues[flags.queue].fifo
      ensures TreeOk(table, flags.queue, queues[flags.queue], Some(id)) && SameBut(queues[flags.queue], Some(id))
      ensures queues[flags.queue].tree != [] ==> queues[flags.queue].onRr
      ensures old(Ordered()) ==> Ordered()
    {
      hide TreeOk, SameBut, QueueOk, InServiceOrder, LeftOk, Distinct;
      var q := flags.queue;
      ghost var t := table;
      table := Table(table.rqs[id := rq], table.flags[id := flags]);
      NewcomerOk(t, table, q, queues[q], id);
      OthersAdmit(t, table, queues, q, id);
      queues := queues[q := Counted(table, queues[q], id)];
      OrderFrame(old(queues), queues, service);
    }

    /** cfq_insert_request: the request waits, and whatever does not wait any more has been
        dispatched. */
    method InsertRequest(id: Id, rq: Request, flags: Flags, key: int)
      requires Valid() && id !in table.rqs && id !in table.flags && flags.queue in queues
      modifies this`table, this`service, this`left, this`queues, this`busyQueues, this`out
      ensures Valid() && queues.Keys == old(queues).Keys && old(out) <= out
      ensures id in Waiting() && (forall x :: x in Waiting() ==> x in old(Waiting()) || x == id)
      ensures forall x :: x in old(Waiting()) ==> x in Waiting() || x in out
      ensures table == Table(old(table).rqs[id := rq], old(table).flags[id := flags])
      ensures queues[flags.queue].fifo != [] && Last(queues[flags.queue].fifo) == id
      ensures old(Ordered()) ==> Ordered()
    {
      hide TreeOk, SameBut, AddedTo, Rr, QueueOk, InServiceOrder;
      Admit(id, rq, flags);
      ghost var mid, sent := queues, out;
      AddRqRb(id, key);
      ghost var now := queues;
      AppendFifo(flags.queue, id);
      WaitingAdded(old(table), table, old(queues), mid, now, queues, flags.queue, id, sent, out);
    }

    method AppendFifo(q: QId, id: Id)
      requires Rr() && q in queues && Others(Some(q)) && TreeOk(table, q, queues[q], None) &&
               SameBut(queues[q], Some(id))
      requires queues[q].onRr && id in queues[q].tree && id !in queues[q].fifo
      modifies this`queues
      ensures Valid() && queues == old(queues)[q := old(queues)[q].(fifo := old(queues)[q].fifo + [id])]
      ensures old(Ordered()) ==> Ordered()
    {
      hide InServiceOrder;
      DistinctSnoc(queues[q].fifo, id);
      queues := queues[q := queues[q].(fifo := queues[q].fifo + [id])];
      OrderFrame(old(queues), queues, service);
    }

    /** The first half of cfq_reposition_rq_rb. */
    method TakeOut(id: Id, sector: nat, len: nat)
      requires Valid() && id in Waiting()
      modifies this`table, this`queues
      ensures id in old(table).rqs
      ensures table == Table(old(table).rqs[id := old(table).rqs[id].(sector := sector, len := len)], old(table).flags)
      ensures var q := table.flags[id].queue;
              && queues == old(queues)[q := old(queues)[q].(tree := Without(old(queues)[q].tree, id))]
              && Rr() && Others(Some(q)) && TreeOk(table, q, queues[q], Some(id)) && SameBut(queues[q], Some(id))
              && queues[q].onRr && id in queues[q].fifo
      ensures old(Ordered()) ==> Ordered()
    {
      hide Sorted, Count, Distinct, InServiceOrder;
      var q := table.flags[id].queue;
      ghost var t := table;
      table := Table(table.rqs[id := table.rqs[id].(sector := sector, len := len)], table.flags);
      TakenOut(t, table, q, queues[q], id);
      WithoutAll(queues[q].tree, id);
      forall x | x in queues && x != q ensures QueueOk(table, x, queues[x]) {
        Elsewhere(t, x, queues[x], id);
        TreeFrame(t, table, x, queues[x], id);
      }
      queues := queues[q := queues[q].(tree := Without(queues[q].tree, id))];
      OrderFrame(old(queues), queues, service);
    }

    /** cfq_merged_request: a bio was merged in front, and the request moves in the tree. */
    method MergedRequest(id: Id, sector: nat, len: nat, key: int)
      requires Valid() && id in Waiting()
      modifies this`table, this`service, this`left, this`queues, this`busyQueues, this`out
      ensures Valid() && queues.Keys == old(queues).Keys && old(out) <= out
      ensures id in Waiting() && Waiting() <= old(Waiting())
      ensures forall x :: x in old(Waiting()) ==> x in Waiting() || x in out
      ensures id in old(table).rqs && table.flags == old(table).flags
      ensures table.rqs == old(table).rqs[id := old(table).rqs[id].(sector := sector, len := len)]
      ensures old(Ordered()) ==> Ordered()
    {
      hide TreeOk, AddedTo, Rr, Distinct, InServiceOrder;
      var q := table.flags[id].queue;
      TakeOut(id, sector, len);
      ghost var mid, sent := queues, out;
      AddRqRb(id, key);
      WithoutAll(old(queues)[q].tree, id);
      WaitingMoved(old(table), table, old(queues), mid, queues, q, id, sent, out);
    }

    /** cfq_merged_requests: `next` is gone; `older` says that it had come first, and then the
        other takes its place in the fifo. */
    method MergedRequests(id: Id, next: Id, older: bool)
      requires Valid() && id in Waiting() && next in Waiting() && id != next
      requires table.flags[id].queue == table.flags[next].queue
      modifies this`service, this`left, this`queues, this`busyQueues
      ensures Valid() && queues.Keys == old(queues).Keys && Waiting() == old(Waiting()) - {next}
      ensures var q := table.flags[id].queue; queues[q].fifo == Joined(old(queues)[q].fifo, id, next, older)
      ensures old(Ordered()) ==> Ordered()
    {
      hide InServiceOrder;
      var q := table.flags[id].queue;
      FifoHas(table, q, queues[q]);
      if older { MoveAfter(q, id, next); }
      Forget(next);
      if older { TakesPlace(old(queues)[q].fifo, id, next); }
    }

    method Forget(id: Id)
      requires Valid() && id in Waiting()
      modifies this`service, this`left, this`queues, this`busyQueues
      ensures Valid() && queues.Keys == old(queues).Keys && Waiting() == old(Waiting()) - {id}
      ensures var q := table.flags[id].queue;
              && queues[q].tree == Without(old(queues)[q].tree, id) && |queues[q].tree| < |old(queues)[q].tree|
              && |service| == |old(service)| - (if queues[q].tree == [] then 1 else 0)
              && queues[q].fifo == Without(old(queues)[q].fifo, id)
      ensures old(Ordered()) ==> Ordered()
    {
      hide Sorted, Count, Distinct, FindNext, Pick, InServiceOrder;
      var q := table.flags[id].queue;
      ghost var was, t := queues, table;
      RemoveRequest(id, None);
      RemovedCounts(t, q, was[q], None, id);
      RemovedKeeps(head, t, q, was[q], None, id);
      RemovedSame(head, t, was[q], None, id);
      SortedDistinct(t.rqs, was[q].tree);
      WithoutDistinct(was[q].tree, id);
      WaitingLess(table, was, queues, q, id);
    }

    /** list_move within the fifo. */
    method MoveAfter(q: QId, id: Id, next: Id)
      requires Valid() && q in queues && id in queues[q].fifo && next in queues[q].fifo && id != next
      modifies this`queues
      ensures Valid()
      ensures queues == old(queues)[q := old(queues)[q].(fifo := MovedAfter(old(queues)[q].fifo, id, next))]
      ensures old(Ordered()) ==> Ordered()
    {
      hide QueueOk, MovedAfter, InServiceOrder;
      MovedOk(table, q, queues[q], id, next);
      queues := queues[q := queues[q].(fifo := MovedAfter(queues[q].fifo, id, next))];
      OrderFrame(old(queues), queues, service);
    }

    // ---- forced dispatch ----

    /** __cfq_forced_dispatch_cfqq: when there is no next request the fifo is empty too. */
    method ForcedDispatchQueue(q: QId) returns (dispatched: nat)
      requires Valid() && q in queues && q in service
      modifies this`service, this`left, this`queues, this`busyQueues, this`out
      ensures Valid() && queues.Keys == old(queues).Keys
      ensures queues[q].tree == [] && queues[q].fifo == [] && |service| == |old(service)| - 1
      ensures |out| == |old(out)| + dispatched && out[..|old(out)|] == old(out)
      ensures Dispatched(old(Waiting()), Waiting(), out[|old(out)|..])
    {
      hide Dispatched, Distinct, Sorted, Count;
      dispatched := 0;
      NothingDispatched(Waiting());
      assert out[|out|..] == [];
      assert queues[q].tree != [];
      while queues[q].next.Some?
        invariant Valid() && queues.Keys == old(queues).Keys
        invariant |service| == |old(service)| - (if queues[q].tree == [] then 1 else 0)
        invariant |out| == |old(out)| + dispatched && out[..|old(out)|] == old(out)
        invariant Dispatched(old(Waiting()), Waiting(), out[|old(out)|..])
        decreases |queues[q].tree|
      {
        var id := queues[q].next.value;
        assert id in queues[q].tree && table.flags[id].queue == q;
        DispatchedOne(old(Waiting()), Waiting(), out[|old(out)|..], id);
        ghost var before := out;
        DispatchInsert(id);
        assert out[|old(out)|..] == before[|old(out)|..] + [id];
        dispatched := dispatched + 1;
      }
      NothingNext(table, q, queues[q]);
    }

    /** cfq_forced_dispatch: it comes to an end, everything that waited has been dispatched, and
        no queue is busy. */
    method ForcedDispatch(key: int) returns (dispatched: nat)
      requires Valid()
      modifies this`service, this`left, this`queues, this`busyQueues, this`out, this`active
      ensures Valid() && Waiting() == {} && service == [] && busyQueues == 0
      ensures |out| == |old(out)| + dispatched && out[..|old(out)|] == old(out)
      ensures Dispatched(old(Waiting()), {}, out[|old(out)|..])
    {
      hide Dispatched, QueueOk, Distinct;
      dispatched := 0;
      NothingDispatched(Waiting());
      assert out[|out|..] == [];
      var n := RbFirst();
      while n.Some?
        invariant Valid() && n == if service == [] then None else Some(service[0])
        invariant |out| == |old(out)| + dispatched && out[..|old(out)|] == old(out)
        invariant Dispatched(old(Waiting()), Waiting(), out[|old(out)|..])
        decreases |service|
      {
        assert service[0] in service;
        ghost var mid, before := Waiting(), out;
        var k := ForcedDispatchQueue(n.value);
        DispatchedMore(old(Waiting()), mid, Waiting(), before[|old(out)|..], out[|before|..]);
        assert out[|old(out)|..] == before[|old(out)|..] + out[|before|..];
        dispatched := dispatched + k;
        n := RbFirst();
      }
      NoneWaiting(table, queues);
      SliceExpired(key);
    }
  }

  function Size(t: RbTree): (n: nat)
    ensures n == |InOrder(t)|
  {
    match t
    case Leaf => 0
    case Node(l, _, r) => Size(l) + 1 + Size(r)
  }

  lemma InOrderLeaf(t: RbTree)
    requires t.Leaf?
    ensures InOrder(t) == []
  {
  }

  /** Where a node of the tree is in the sequence. */
  lemma AtNode(s: seq<QId>, lo: nat, hi: nat, t: RbTree)
    requires t.Node? && lo <= hi <= |s| && InOrder(t) == s[lo..hi]
    ensures var m := lo + Size(t.left);
            && m < hi && s[m] == t.queue && InOrder(t.left) == s[lo..m] && InOrder(t.right) == s[m + 1..hi]
  {
    var part, l, r := s[lo..hi], InOrder(t.left), InOrder(t.right);
    assert part == l + [t.queue] + r;
    hide InOrder;
    Parts(part, l, t.queue, r);
    Inner(s, lo, hi, |l|);
  }

  lemma Parts(all: seq<QId>, l: seq<QId>, x: QId, r: seq<QId>)
    requires all == l + [x] + r
    ensures |l| < |all| && all[|l|] == x && all[..|l|] == l && all[|l| + 1..] == r
  {
  }

  lemma Inner(s: seq<QId>, lo: nat, hi: nat, n: nat)
    requires lo <= hi <= |s| && n < hi - lo
    ensures s[lo..hi][n] == s[lo + n] && s[lo..hi][..n] == s[lo..lo + n] && s[lo..hi][n + 1..] == s[lo + n + 1..hi]
  {
  }

  // ---- the order of service ----

  lemma {:induction false} OrderWithout(queues: map<QId, Queue>, s: seq<QId>, q: QId)
    requires InServiceOrder(queues, s)
    ensures InServiceOrder(queues, Without(s, q))
    decreases |s|
  {
    hide GoesLeft;
    if s != [] {
      assert forall i :: 0 <= i < |s[1..]| ==> s[1..][i] == s[i + 1];
      OrderWithout(queues, s[1..], q);
      WithoutAll(s[1..], q);
      var r := Without(s[1..], q);
      forall j | 0 <= j < |r| && s[0] in queues && r[j] in queues
        ensures !GoesLeft(queues[r[j]], queues[r[j]].key, queues[s[0]])
      {
        assert r[j] in r && r[j] in s[1..];
      }
    }
  }

  predicate SameRank(a: Queue, b: Queue) {
    a.rt == b.rt && a.idle == b.idle && a.key == b.key
  }

  /** The order depends on classes and times only. */
  lemma OrderFrame(queues: map<QId, Queue>, queues': map<QId, Queue>, s: seq<QId>)
    requires forall x :: x in s && x in queues' ==> x in queues && SameRank(queues[x], queues'[x])
    ensures InServiceOrder(queues, s) ==> InServiceOrder(queues', s)
  {
    if InServiceOrder(queues, s) {
      forall i, j | 0 <= i < j < |s| && s[i] in queues' && s[j] in queues'
        ensures !GoesLeft(queues'[s[j]], queues'[s[j]].key, queues'[s[i]])
      {
        var x, y := s[i], s[j];
        assert x in s && y in s && SameRank(queues[x], queues'[x]) && SameRank(queues[y], queues'[y]);
      }
    }
  }

  /** A queue of another class is still not behind its successor nor in front of its
      predecessor. */
  predicate StillFits(queues: map<QId, Queue>, s: seq<QId>, i: nat, q: Queue)
    requires i < |s|
  {
    && (i > 0 && s[i - 1] in queues ==> !GoesLeft(q, q.key, queues[s[i - 1]]))
    && (i + 1 < |s| && s[i + 1] in queues ==> !GoesLeft(queues[s[i + 1]], queues[s[i + 1]].key, q))
  }

  lemma RankTransitive(a: Queue, b: Queue, c: Queue)
    requires !GoesLeft(a, a.key, b) && !GoesLeft(b, b.key, c)
    ensures !GoesLeft(a, a.key, c)
  {
  }

  lemma OthersSame(queues: map<QId, Queue>, s: seq<QId>, i: nat, j: nat, q: Queue)
    requires Distinct(s) && (forall x :: x in s ==> x in queues) && i < |s| && j < |s| && i != j
    ensures s[j] in queues && queues[s[i] := q][s[j]] == queues[s[j]]
  {
    DistinctAt(s, if i < j then i else j, if i < j then j else i);
    var x := s[j];
    assert x in s;
  }

  /** A queue that changes its class while it waits leaves the tree sorted exactly when it still
      fits where it is. */
  lemma ClassChange(queues: map<QId, Queue>, s: seq<QId>, i: nat, q: Queue)
    requires Distinct(s) && (forall x :: x in s ==> x in queues) && InServiceOrder(queues, s) && i < |s|
    ensures InServiceOrder(queues[s[i] := q], s) <==> StillFits(queues, s, i, q)
  {
    hide Distinct, GoesLeft;
    var now := queues[s[i] := q];
    if i > 0 { OthersSame(queues, s, i, i - 1, q); }
    if i + 1 < |s| { OthersSame(queues, s, i, i + 1, q); }
    if StillFits(queues, s, i, q) {
      forall a, b | 0 <= a < b < |s| && s[a] in now && s[b] in now
        ensures !GoesLeft(now[s[b]], now[s[b]].key, now[s[a]])
      {
        FitsAll(queues, s, i, q, a, b);
      }
    }
  }

  lemma FitsAll(queues: map<QId, Queue>, s: seq<QId>, i: nat, q: Queue, a: nat, b: nat)
    requires Distinct(s) && (forall x :: x in s ==> x in queues) && InServiceOrder(queues, s)
    requires i < |s| && a < b < |s| && StillFits(queues, s, i, q)
    ensures var now := queues[s[i] := q];
            s[a] in now && s[b] in now && !GoesLeft(now[s[b]], now[s[b]].key, now[s[a]])
  {
    hide Distinct, GoesLeft;
    if a != i { OthersSame(queues, s, i, a, q); }
    if b != i { OthersSame(queues, s, i, b, q); }
    if b == i && a < i - 1 {
      OthersSame(queues, s, i, i - 1, q);
      RankTransitive(q, queues[s[i - 1]], queues[s[a]]);
    } else if a == i && b > i + 1 {
      OthersSame(queues, s, i, i + 1, q);
      RankTransitive(queues[s[b]], queues[s[i + 1]], q);
    }
  }

  const FIRST_QUEUE := Queue([0], [0], Some(0), 1, 0, true, 1, false, false)
  const SECOND_QUEUE := Queue([1], [1], Some(1), 1, 0, true, 2, false, false)
  const TWO_READS := Table(map[0 := Request(false, 0, 1, 0), 1 := Request(false, 8, 1, 0)],
                           map[0 := Flags(0, true, false), 1 := Flags(1, true, false)])

  /** It may not: of two best-effort queues with a read each the second is boosted to the
      real-time class where it is. */
  lemma ClassChangeBreaks()
    ensures QueueOk(TWO_READS, 0, FIRST_QUEUE) && QueueOk(TWO_READS, 1, SECOND_QUEUE)
    ensures QueueOk(TWO_READS, 1, SECOND_QUEUE.(rt := true))
    ensures InServiceOrder(map[0 := FIRST_QUEUE, 1 := SECOND_QUEUE], [0, 1])
    ensures !InServiceOrder(map[0 := FIRST_QUEUE, 1 := SECOND_QUEUE.(rt := true)], [0, 1])
  {
    hide QueueOk;
    OneRequestOk(TWO_READS, 0, FIRST_QUEUE, 0);
    OneRequestOk(TWO_READS, 1, SECOND_QUEUE, 1);
    OneRequestOk(TWO_READS, 1, SECOND_QUEUE.(rt := true), 1);
    var now, s := map[0 := FIRST_QUEUE, 1 := SECOND_QUEUE.(rt := true)], [0, 1];
    assert s[0] in now && s[1] in now && GoesLeft(now[s[1]], now[s[1]].key, now[s[0]]);
  }

  /** A queue with one synchronous request. */
  lemma OneRequestOk(t: Table, qid: QId, q: Queue, id: Id)
    requires id in t.rqs && id in t.flags && t.flags[id].queue == qid && t.flags[id].sync
    requires q.tree == [id] && q.fifo == [id] && q.next == Some(id) && q.queuedSync == 1 && q.queuedAsync == 0 && q.onRr
    ensures QueueOk(t, qid, q)
  {
    assert [id][1..] == [];
  }

  lemma AllBetween(queues: map<QId, Queue>, s: seq<QId>, q: Queue, key: int)
    ensures Between(queues, s, 0, |s|, q, key)
  {
  }

  /** In a sorted tree a comparison with one queue settles it for those on its other side. */
  lemma Narrow(queues: map<QId, Queue>, s: seq<QId>, lo: nat, hi: nat, m: nat, q: Queue, key: int)
    requires InServiceOrder(queues, s) && Between(queues, s, lo, hi, q, key) && m < |s| && s[m] in queues
    ensures GoesLeft(q, key, queues[s[m]]) ==> Between(queues, s, lo, m, q, key)
    ensures !GoesLeft(q, key, queues[s[m]]) ==> Between(queues, s, m + 1, hi, q, key)
  {
  }

  lemma OrderInsert(queues: map<QId, Queue>, s: seq<QId>, pos: nat, q: QId, key: int)
    requires q in queues && q !in s && pos <= |s| && InServiceOrder(queues, s)
    requires Between(queues, s, pos, pos, queues[q], key)
    ensures InServiceOrder(queues[q := queues[q].(key := key)], s[..pos] + [q] + s[pos..])
  {
    var now, r := queues[q := queues[q].(key := key)], s[..pos] + [q] + s[pos..];
    forall i, j | 0 <= i < j < |r| && r[i] in now && r[j] in now
      ensures !GoesLeft(now[r[j]], now[r[j]].key, now[r[i]])
    {
      var i', j' := if i < pos then i else i - 1, if j < pos then j else j - 1;
      if i != pos && j != pos { assert r[i] == s[i'] && r[j] == s[j']; }
      else if i == pos { assert r[j] == s[j']; }
      else { assert r[i] == s[i]; }
    }
  }

  /** There is a shape for every sequence. */
  function Spine(s: seq<QId>): (t: RbTree)
    ensures InOrder(t) == s
  {
    if s == [] then Leaf else Node(Leaf, s[0], Spine(s[1..]))
  }

  /** Only queue q has changed, and what has left it has been dispatched. */
  ghost predicate LeftFor(was: map<QId, Queue>, now: map<QId, Queue>, q: QId, before: seq<Id>, after: seq<Id>)
    requires q in was && q in now
  {
    && before <= after
    && (forall x :: x in was && x != q ==> x in now && now[x] == was[x])
    && (forall x :: x in now[q].tree ==> x in was[q].tree)
    && (forall x :: x in was[q].tree ==> x in now[q].tree || x in after)
  }

  /** The same, with one request more. */
  ghost predicate AddedTo(was: map<QId, Queue>, now: map<QId, Queue>, q: QId, id: Id, before: seq<Id>, after: seq<Id>)
    requires q in was && q in now
  {
    && before <= after
    && (forall x :: x in was && x != q ==> x in now && now[x] == was[x])
    && (forall x :: x in now[q].tree ==> x in was[q].tree || x == id)
    && (forall x :: x in was[q].tree ==> x in now[q].tree || x in after)
  }

  lemma NothingLeft(queues: map<QId, Queue>, q: QId, out: seq<Id>)
    requires q in queues
    ensures LeftFor(queues, queues, q, out, out)
  {
  }

  lemma LeftMore(was: map<QId, Queue>, mid: map<QId, Queue>, now: map<QId, Queue>, q: QId,
                 before: seq<Id>, sent: seq<Id>, id: Id)
    requires q in was && q in mid && q in now && LeftFor(was, mid, q, before, sent)
    requires was.Keys == mid.Keys == now.Keys && now[q].tree == Without(mid[q].tree, id)
    requires forall x :: x in now && x != q ==> now[x] == mid[x]
    ensures LeftFor(was, now, q, before, sent + [id])
  {
    WithoutAll(mid[q].tree, id);
  }

  lemma LeftAndAdded(was: map<QId, Queue>, mid: map<QId, Queue>, now: map<QId, Queue>, q: QId, id: Id,
                     before: seq<Id>, after: seq<Id>)
    requires q in was && q in mid && q in now && LeftFor(was, mid, q, before, after)
    requires was.Keys == mid.Keys == now.Keys && forall x :: x in now[q].tree <==> x in mid[q].tree || x == id
    requires forall x :: x in now && x != q ==> now[x] == mid[x]
    ensures AddedTo(was, now, q, id, before, after) && id in now[q].tree
  {
  }

  function PlaceOf(s: seq<Id>, x: Id): (i: nat)
    requires x in s
    ensures i < |s| && s[i] == x
  {
    if s[0] == x then 0 else 1 + PlaceOf(s[1..], x)
  }

  function MovedAfter(fifo: seq<Id>, id: Id, next: Id): (r: seq<Id>) {
    var rest := Without(fifo, id);
    if next in rest then rest[..PlaceOf(rest, next) + 1] + [id] + rest[PlaceOf(rest, next) + 1..] else fifo
  }

  function Last(s: seq<Id>): (id: Id)
    requires s != []
  {
    s[|s| - 1]
  }

  /** The fifo once `next` is gone: the other keeps its place, or takes that of `next` if `next`
      had come first. */
  function Joined(fifo: seq<Id>, id: Id, next: Id, older: bool): (r: seq<Id>) {
    var rest := Without(fifo, id);
    if older && next in rest then rest[PlaceOf(rest, next) := id] else Without(fifo, next)
  }

  lemma {:induction false} WithoutAt(s: seq<Id>, i: nat)
    requires Distinct(s) && i < |s|
    ensures Without(s, s[i]) == s[..i] + s[i + 1..]
  {
    if i == 0 {
      WithoutAbsent(s[1..], s[0]);
    } else {
      assert s[i] == s[1..][i - 1] && s[i] in s[1..];
      WithoutAt(s[1..], i - 1);
      assert s[..i] == [s[0]] + s[1..][..i - 1] && s[1..][i..] == s[i + 1..];
    }
  }

  lemma TakesPlace(fifo: seq<Id>, id: Id, next: Id)
    requires Distinct(fifo) && id in fifo && next in fifo && id != next
    ensures Without(MovedAfter(fifo, id, next), next) == Joined(fifo, id, next, true)
  {
    hide Distinct, Without, PlaceOf;
    var rest, moved := Without(fifo, id), MovedAfter(fifo, id, next);
    WithoutHas(fifo, id, next);
    MovedAfterSame(fifo, id, next);
    var k := PlaceOf(rest, next);
    assert moved[k] == next;
    WithoutAt(moved, k);
    Replaced(rest, k, id);
  }

  lemma Replaced(s: seq<Id>, k: nat, x: Id)
    requires k < |s|
    ensures var moved := s[..k + 1] + [x] + s[k + 1..];
            s[k := x] == moved[..k] + moved[k + 1..]
  {
    var moved := s[..k + 1] + [x] + s[k + 1..];
    assert moved[..k] == s[..k];
    assert moved[k + 1..] == [x] + s[k + 1..];
  }

  lemma FifoHas(t: Table, qid: QId, q: Queue)
    requires QueueOk(t, qid, q)
    ensures Distinct(q.fifo) && forall x :: x in q.fifo <==> x in q.tree
  {
  }

  lemma MovedAfterSame(fifo: seq<Id>, id: Id, next: Id)
    requires Distinct(fifo) && id in fifo
    ensures Distinct(MovedAfter(fifo, id, next)) && forall x :: x in MovedAfter(fifo, id, next) <==> x in fifo
  {
    var rest := Without(fifo, id);
    WithoutAll(fifo, id);
    WithoutDistinct(fifo, id);
    hide Distinct;
    if next in rest {
      InsertDistinct(rest, PlaceOf(rest, next) + 1, id);
      InsertHas(rest, PlaceOf(rest, next) + 1, id);
    }
  }

  lemma MovedOk(t: Table, qid: QId, q: Queue, id: Id, next: Id)
    requires QueueOk(t, qid, q) && id in q.fifo
    ensures QueueOk(t, qid, q.(fifo := MovedAfter(q.fifo, id, next)))
  {
    MovedAfterSame(q.fifo, id, next);
    hide Distinct, Sorted, Count, MovedAfter;
  }

  /** When no queue waits for service, no request waits. */
  lemma NoneWaiting(t: Table, queues: map<QId, Queue>)
    requires forall q :: q in queues ==> QueueOk(t, q, queues[q]) && !queues[q].onRr
    ensures WaitingIn(t, queues) == {}
  {
  }

  /** The requests that wait: in the tree of the queue they belong to. */
  function WaitingIn(t: Table, queues: map<QId, Queue>): (ids: set<Id>) {
    set x | x in t.flags && t.flags[x].queue in queues && x in queues[t.flags[x].queue].tree
  }

  lemma WaitingLess(t: Table, was: map<QId, Queue>, now: map<QId, Queue>, q: QId, id: Id)
    requires was.Keys == now.Keys && q in was && now[q].tree == Without(was[q].tree, id)
    requires id in t.flags && t.flags[id].queue == q
    requires forall x :: x in now && x != q ==> now[x] == was[x]
    ensures WaitingIn(t, now) == WaitingIn(t, was) - {id}
  {
    WithoutAll(was[q].tree, id);
  }

  lemma WaitingAdded(t: Table, t': Table, was: map<QId, Queue>, mid: map<QId, Queue>, now: map<QId, Queue>,
                     end: map<QId, Queue>, q: QId, id: Id, sent: seq<Id>, out: seq<Id>)
    requires id !in t.flags && id in t'.flags && t'.flags == t.flags[id := t'.flags[id]] && t'.flags[id].queue == q
    requires was.Keys == mid.Keys == now.Keys == end.Keys && q in was
    requires mid == was[q := mid[q]] && mid[q].tree == was[q].tree
    requires AddedTo(mid, now, q, id, sent, out) && id in now[q].tree
    requires end == now[q := end[q]] && end[q].tree == now[q].tree
    ensures sent <= out && id in WaitingIn(t', end)
    ensures forall x :: x in WaitingIn(t', end) ==> x in WaitingIn(t, was) || x == id
    ensures forall x :: x in WaitingIn(t, was) ==> x in WaitingIn(t', end) || x in out
  {
  }

  lemma WaitingMoved(t: Table, t': Table, was: map<QId, Queue>, mid: map<QId, Queue>, now: map<QId, Queue>,
                     q: QId, id: Id, sent: seq<Id>, out: seq<Id>)
    requires t'.flags == t.flags && id in t.flags && t.flags[id].queue == q && was.Keys == mid.Keys == now.Keys &&
             q in was
    requires mid == was[q := mid[q]] && (forall x :: x in mid[q].tree <==> x in was[q].tree && x != id) &&
             id in was[q].tree
    requires AddedTo(mid, now, q, id, sent, out) && id in now[q].tree
    ensures sent <= out && id in WaitingIn(t', now) && WaitingIn(t', now) <= WaitingIn(t, was)
    ensures forall x :: x in WaitingIn(t, was) ==> x in WaitingIn(t', now) || x in out
  {
    forall x | x in WaitingIn(t', now) ensures x in WaitingIn(t, was) {
      var p := t.flags[x].queue;
      if p == q { assert x in mid[q].tree || x == id; } else { assert now[p] == mid[p] == was[p]; }
    }
  }

  lemma NotThere(t: Table, qid: QId, q: Queue, id: Id)
    requires QueueOk(t, qid, q) && id !in t.rqs
    ensures id !in q.tree && id !in q.fifo
  {
  }

  lemma NewcomerOk(t: Table, t': Table, qid: QId, q: Queue, id: Id)
    requires QueueOk(t, qid, q) && id !in t.rqs && id !in t.flags
    requires id in t'.rqs && id in t'.flags && t' == Table(t.rqs[id := t'.rqs[id]], t.flags[id := t'.flags[id]])
    ensures TreeOk(t', qid, Counted(t', q, id), Some(id)) && SameBut(Counted(t', q, id), Some(id))
    ensures id !in q.fifo && (q.tree != [] ==> q.onRr)
  {
    hide Sorted, Count, Distinct;
    NotThere(t, qid, q, id);
    NewcomerCounted(t, t', qid, q, id);
  }

  /** A request not known before makes no difference to the queues it is not on. */
  lemma OthersAdmit(t: Table, t': Table, queues: map<QId, Queue>, q: QId, id: Id)
    requires id !in t.rqs && id !in t.flags && id in t'.rqs && id in t'.flags && t'.flags[id].queue == q
    requires t' == Table(t.rqs[id := t'.rqs[id]], t.flags[id := t'.flags[id]])
    requires forall x :: x in queues ==> QueueOk(t, x, queues[x])
    ensures forall x :: x in queues && x != q ==> QueueOk(t', x, queues[x])
  {
    hide Sorted, Count, Distinct;
    forall x | x in queues && x != q ensures QueueOk(t', x, queues[x]) {
      NotThere(t, x, queues[x], id);
      TreeFrame(t, t', x, queues[x], id);
    }
  }

  lemma Elsewhere(t: Table, qid: QId, q: Queue, id: Id)
    requires QueueOk(t, qid, q) && FlagsOf(t, id).queue != qid
    ensures id !in q.tree
  {
  }

  lemma AliasKnown(t: Table, qid: QId, q: Queue, hole: Option<Id>, alias: Id)
    requires TreeOk(t, qid, q, hole) && alias in q.tree
    ensures alias in t.flags && t.flags[alias].queue == qid
  {
  }

  /** Each of the requests that waited before and do not wait now was dispatched, once. */
  ghost predicate Dispatched(before: set<Id>, after: set<Id>, out: seq<Id>) {
    Distinct(out) && after <= before && forall x :: x in out <==> x in before && x !in after
  }

  lemma NothingDispatched(ids: set<Id>)
    ensures Dispatched(ids, ids, [])
  {
  }

  lemma DispatchedOne(before: set<Id>, after: set<Id>, out: seq<Id>, id: Id)
    requires Dispatched(before, after, out) && id in after
    ensures Dispatched(before, after - {id}, out + [id])
  {
    DistinctSnoc(out, id);
  }

  lemma DispatchedMore(before: set<Id>, mid: set<Id>, after: set<Id>, a: seq<Id>, b: seq<Id>)
    requires Dispatched(before, mid, a) && Dispatched(mid, after, b)
    ensures Dispatched(before, after, a + b)
  {
    forall i | 0 <= i < |a| ensures a[i] !in b {
      var x := a[i];
      assert x in a && x !in mid;
    }
    DistinctJoin(a, b);
  }

  lemma NothingNext(t: Table, qid: QId, q: Queue)
    requires QueueOk(t, qid, q) && q.next == None
    ensures q.tree == [] && q.fifo == []
  {
    if q.fifo != [] { var x := SomeOf(q.fifo); }
  }

  lemma SomeOf(s: seq<Id>) returns (x: Id)
    requires s != []
    ensures x in s
  {
    x := s[0];
  }
}
