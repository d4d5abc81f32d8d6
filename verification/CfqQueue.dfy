/**
 One queue of the CFQ I/O scheduler: its requests sorted by sector, the same requests in the
 order of arrival, the request to serve next, and how many there are of each kind.
 */
module CfqQueue {
  import opened Lists
  import opened SectorTree
  import SeekChoice

  type QId = int

  datatype Flags = Flags(queue: QId, sync: bool, meta: bool)

  /** What is known of every request: where on the disk it is, and whose and what kind. */
  datatype Table = Table(rqs: Requests, flags: map<Id, Flags>)

  /** `onRr`: the queue waits for service; `key` is its time of service, `rt` and `idle` its
      class. */
  datatype Queue = Queue(tree: seq<Id>, fifo: seq<Id>, next: Option<Id>, queuedSync: nat, queuedAsync: nat,
                         onRr: bool, key: int, rt: bool, idle: bool)

  function FlagsOf(t: Table, id: Id): (f: Flags) {
    if id in t.flags then t.flags[id] else Flags(0, false, false)
  }

  function Seen(t: Table, id: Id): (r: SeekChoice.Request) {
    SeekChoice.Request(Of(t.rqs, id).sector, FlagsOf(t, id).sync, FlagsOf(t, id).meta)
  }

  /** cfq_choose_req, either of them possibly missing. */
  function Pick(h: SeekChoice.Head, t: Table, a: Option<Id>, b: Option<Id>): (r: Option<Id>) {
    if a == None || a == b then b
    else if b == None then a
    else if SeekChoice.CfqChoose(h, Seen(t, a.value), Seen(t, b.value)) == Seen(t, a.value) then a
    else b
  }

  /** rb_prev. */
  function Ahead(tree: seq<Id>, id: Id): (prev: Option<Id>) {
    if |tree| < 2 then None
    else if tree[1] == id then Some(tree[0])
    else Ahead(tree[1..], id)
  }

  /** cfq_find_next_rq. */
  function FindNext(h: SeekChoice.Head, t: Table, tree: seq<Id>, id: Id): (r: Option<Id>)
    requires tree != []
  {
    var next := After(tree, id);
    Pick(h, t, if next.Some? then next else if tree[0] != id then Some(tree[0]) else None, Ahead(tree, id))
  }

  function Count(t: Table, ids: seq<Id>, sync: bool): (n: nat) {
    if ids == [] then 0 else (if FlagsOf(t, ids[0]).sync == sync then 1 else 0) + Count(t, ids[1..], sync)
  }

  function One(t: Table, id: Option<Id>, sync: bool): (n: nat) {
    if id.Some? && FlagsOf(t, id.value).sync == sync then 1 else 0
  }

  /** The sorted requests and what goes with them; `hole` is a request already counted and for
      the moment not in the tree. */
  ghost predicate TreeOk(t: Table, qid: QId, q: Queue, hole: Option<Id>) {
    && Sorted(t.rqs, q.tree)
    && (forall x :: x in q.tree ==> x in t.rqs && x in t.flags && t.flags[x].queue == qid && Some(x) != hole)
    && (q.tree != [] ==> q.next.Some?)
    && (q.next.Some? ==> q.next.value in q.tree || q.next == hole)
    && q.queuedSync == Count(t, q.tree, true) + One(t, hole, true)
    && q.queuedAsync == Count(t, q.tree, false) + One(t, hole, false)
  }

  /** The fifo has the requests of the tree, except possibly for one. */
  ghost predicate SameBut(q: Queue, but: Option<Id>) {
    Distinct(q.fifo) && forall x :: Some(x) != but ==> (x in q.tree <==> x in q.fifo)
  }

  ghost predicate QueueOk(t: Table, qid: QId, q: Queue) {
    TreeOk(t, qid, q, None) && SameBut(q, None) && (q.onRr <==> q.tree != [])
  }

  // ---- neighbours ----

  lemma {:induction false} SortedDistinct(rqs: Requests, tree: seq<Id>)
    requires Sorted(rqs, tree)
    ensures Distinct(tree)
  {
    if tree != [] {
      SortedDistinct(rqs, tree[1..]);
      assert tree[0] !in tree[1..];
    }
  }

  lemma {:induction false} AheadOther(tree: seq<Id>, id: Id)
    requires Distinct(tree)
    ensures Ahead(tree, id).Some? ==> Ahead(tree, id).value in tree && Ahead(tree, id).value != id
    ensures id in tree && tree[0] != id ==> Ahead(tree, id).Some?
  {
    if |tree| >= 2 {
      AheadOther(tree[1..], id);
      assert tree[1] in tree[1..];
    }
  }

  /** There is a next one to serve exactly when something is left, and it is among what is left. */
  lemma FindNextLeft(h: SeekChoice.Head, t: Table, tree: seq<Id>, id: Id)
    requires Sorted(t.rqs, tree) && id in tree
    ensures FindNext(h, t, tree, id).Some? <==> Without(tree, id) != []
    ensures FindNext(h, t, tree, id).Some? ==> FindNext(h, t, tree, id).value in Without(tree, id)
  {
    var first, r, left := tree[0], FindNext(h, t, tree, id), Without(tree, id);
    SortedDistinct(t.rqs, tree);
    AfterOther(t.rqs, tree, id);
    AheadOther(tree, id);
    WithoutAll(tree, id);
    assert first in tree;
    if r.Some? { assert r.value in tree && r.value != id; }
    if left != [] {
      var x := left[0];
      assert x in left && x in tree && x != id;
      if first == id { assert |tree| > 1; }
    }
  }

  // ---- counting ----

  lemma {:induction false} CountConcat(t: Table, a: seq<Id>, b: seq<Id>, sync: bool)
    ensures Count(t, a + b, sync) == Count(t, a, sync) + Count(t, b, sync)
    decreases |a|
  {
    if a == [] {
      assert a + b == b;
    } else {
      assert (a + b)[1..] == a[1..] + b;
      CountConcat(t, a[1..], b, sync);
    }
  }

  lemma CountInsert(t: Table, tree: seq<Id>, i: nat, id: Id, sync: bool)
    requires i <= |tree|
    ensures Count(t, tree[..i] + [id] + tree[i..], sync) == Count(t, tree, sync) + One(t, Some(id), sync)
  {
    assert tree == tree[..i] + tree[i..];
    CountConcat(t, tree[..i], tree[i..], sync);
    CountConcat(t, tree[..i] + [id], tree[i..], sync);
    CountConcat(t, tree[..i], [id], sync);
    assert [id][1..] == [];
  }

  lemma {:induction false} CountWithout(t: Table, tree: seq<Id>, id: Id, sync: bool)
    requires Distinct(tree) && id in tree
    ensures Count(t, tree, sync) == Count(t, Without(tree, id), sync) + One(t, Some(id), sync)
  {
    if tree[0] == id {
      WithoutAbsent(tree[1..], id);
    } else {
      CountWithout(t, tree[1..], id, sync);
      assert Without(tree, id)[1..] == Without(tree[1..], id);
    }
  }

  lemma {:induction false} CountFrame(t: Table, t': Table, ids: seq<Id>, sync: bool)
    requires forall x :: x in ids ==> FlagsOf(t', x).sync == FlagsOf(t, x).sync
    ensures Count(t', ids, sync) == Count(t, ids, sync)
  {
    if ids != [] { CountFrame(t, t', ids[1..], sync); }
  }

  // ---- taking one out ----

  /** The number of queued requests of a kind, one less. */
  function Uncounted(t: Table, q: Queue, id: Id): (q': Queue)
    requires q.queuedSync >= One(t, Some(id), true) && q.queuedAsync >= One(t, Some(id), false)
  {
    q.(queuedSync := q.queuedSync - One(t, Some(id), true), queuedAsync := q.queuedAsync - One(t, Some(id), false))
  }

  function Counted(t: Table, q: Queue, id: Id): (q': Queue) {
    q.(queuedSync := q.queuedSync + One(t, Some(id), true), queuedAsync := q.queuedAsync + One(t, Some(id), false))
  }

  /** cfq_remove_request on the queue itself. */
  function Removed(h: SeekChoice.Head, t: Table, q: Queue, id: Id): (q': Queue)
    requires q.tree != [] && q.queuedSync >= One(t, Some(id), true) && q.queuedAsync >= One(t, Some(id), false)
  {
    Uncounted(t, q, id).(
      next := if q.next == Some(id) then FindNext(h, t, q.tree, id) else q.next,
      fifo := Without(q.fifo, id), tree := Without(q.tree, id))
  }

  /** What is taken out has been counted: the BUG_ON in cfq_del_rq_rb cannot fire. */
  lemma RemovedCounts(t: Table, qid: QId, q: Queue, hole: Option<Id>, id: Id)
    requires TreeOk(t, qid, q, hole) && id in q.tree
    ensures q.queuedSync >= One(t, Some(id), true) && q.queuedAsync >= One(t, Some(id), false)
    ensures FlagsOf(t, id).sync ==> q.queuedSync > 0
    ensures !FlagsOf(t, id).sync ==> q.queuedAsync > 0
  {
    SortedDistinct(t.rqs, q.tree);
    CountWithout(t, q.tree, id, true);
    CountWithout(t, q.tree, id, false);
  }

  lemma RemovedKeeps(h: SeekChoice.Head, t: Table, qid: QId, q: Queue, hole: Option<Id>, id: Id)
    requires TreeOk(t, qid, q, hole) && id in q.tree
    requires q.queuedSync >= One(t, Some(id), true) && q.queuedAsync >= One(t, Some(id), false)
    ensures TreeOk(t, qid, Removed(h, t, q, id), hole)
  {
    var q' := Removed(h, t, q, id);
    SortedDistinct(t.rqs, q.tree);
    WithoutSorted(t.rqs, q.tree, id);
    WithoutAll(q.tree, id);
    FindNextLeft(h, t, q.tree, id);
    CountWithout(t, q.tree, id, true);
    CountWithout(t, q.tree, id, false);
    hide FindNext, Sorted, Distinct, Count;
    if q.next.Some? && q.next != Some(id) { assert q.next.value != id; }
  }

  lemma RemovedSame(h: SeekChoice.Head, t: Table, q: Queue, but: Option<Id>, id: Id)
    requires q.tree != [] && SameBut(q, but)
    requires q.queuedSync >= One(t, Some(id), true) && q.queuedAsync >= One(t, Some(id), false)
    ensures SameBut(Removed(h, t, q, id), but)
  {
    WithoutAll(q.tree, id);
    WithoutAll(q.fifo, id);
    WithoutDistinct(q.fifo, id);
    hide FindNext, Distinct;
  }

  // ---- putting one in ----

  /** The end of cfq_add_rq_rb: the request is in the tree and may be a better one to serve. */
  function Inserted(h: SeekChoice.Head, t: Table, q: Queue, id: Id): (q': Queue) {
    q.(tree := Insert(t.rqs, q.tree, id), next := Pick(h, t, q.next, Some(id)))
  }

  lemma InsertedKeeps(h: SeekChoice.Head, t: Table, qid: QId, q: Queue, id: Id)
    requires TreeOk(t, qid, q, Some(id)) && AliasOf(t.rqs, q.tree, Of(t.rqs, id).sector) == None
    requires id in t.rqs && id in t.flags && t.flags[id].queue == qid
    ensures TreeOk(t, qid, Inserted(h, t, q, id), None)
  {
    var i := Below(t.rqs, q.tree, Of(t.rqs, id).sector);
    InsertedHas(t.rqs, q.tree, id);
    InsertSorted(t.rqs, q.tree, id);
    CountInsert(t, q.tree, i, id, true);
    CountInsert(t, q.tree, i, id, false);
    hide Sorted, Count;
  }

  lemma InsertedSame(h: SeekChoice.Head, t: Table, q: Queue, id: Id)
    requires SameBut(q, Some(id))
    ensures SameBut(Inserted(h, t, q, id), Some(id)) && id in Inserted(h, t, q, id).tree
  {
    InsertedHas(t.rqs, q.tree, id);
    hide Insert, Distinct;
  }

  // ---- when the table changes ----

  /** Other requests are what they were. */
  ghost predicate SameFor(t: Table, t': Table, id: Id) {
    && (forall x :: x != id && x in t.rqs ==> x in t'.rqs && t'.rqs[x] == t.rqs[x])
    && (forall x :: x != id && x in t.flags ==> x in t'.flags && t'.flags[x] == t.flags[x])
  }

  lemma TreeFrame(t: Table, t': Table, qid: QId, q: Queue, id: Id)
    requires TreeOk(t, qid, q, None) && SameFor(t, t', id) && id !in q.tree
    ensures TreeOk(t', qid, q, None)
  {
    SortedFrame(t.rqs, t'.rqs, q.tree);
    CountFrame(t, t', q.tree, true);
    CountFrame(t, t', q.tree, false);
  }

  /** A request leaves the tree for a moment, to be put back elsewhere. */
  lemma TakenOut(t: Table, t': Table, qid: QId, q: Queue, id: Id)
    requires TreeOk(t, qid, q, None) && id in q.tree && SameFor(t, t', id)
    requires FlagsOf(t', id).sync == FlagsOf(t, id).sync
    ensures TreeOk(t', qid, q.(tree := Without(q.tree, id)), Some(id))
  {
    var tree := Without(q.tree, id);
    hide Sorted, Count, Distinct;
    WithoutSorted(t.rqs, q.tree, id);
    WithoutAll(q.tree, id);
    SortedFrame(t.rqs, t'.rqs, tree);
    CountTaken(t, t', q.tree, id, true);
    CountTaken(t, t', q.tree, id, false);
    if q.next.Some? && q.next != Some(id) { assert q.next.value != id; }
  }

  lemma CountTaken(t: Table, t': Table, tree: seq<Id>, id: Id, sync: bool)
    requires Sorted(t.rqs, tree) && id in tree && (forall x :: x in tree ==> x in t.flags) && SameFor(t, t', id)
    requires FlagsOf(t', id).sync == FlagsOf(t, id).sync
    ensures Count(t, tree, sync) == Count(t', Without(tree, id), sync) + One(t', Some(id), sync)
  {
    SortedDistinct(t.rqs, tree);
    WithoutAll(tree, id);
    CountWithout(t, tree, id, sync);
    CountFrame(t, t', Without(tree, id), sync);
  }

  /** A request not seen before is counted. */
  lemma NewcomerCounted(t: Table, t': Table, qid: QId, q: Queue, id: Id)
    requires TreeOk(t, qid, q, None) && id !in q.tree && SameFor(t, t', id)
    ensures TreeOk(t', qid, Counted(t', q, id), Some(id))
  {
    TreeFrame(t, t', qid, q, id);
  }
}
