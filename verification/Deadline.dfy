/**
 The deadline I/O scheduler as a state machine: for each direction a tree sorted by sector,
 a fifo by expiry and a cached next request, with the counters that bound batches and the
 starvation of writes.
 */
module Deadline {
  import opened Lists
  import opened SectorTree

  /** The queues of one direction. The tree is its requests in sector order. */
  datatype Side = Side(tree: seq<Id>, fifo: seq<Id>, next: Option<Id>)

  /** `writesStarved` is the unsigned number it is compared as, so that a negative setting is a
      large one. */
  datatype Tunables = Tunables(readExpire: nat, writeExpire: nat, fifoBatch: nat, writesStarved: nat)

  /** `rqs` has every request ever added, `issued` those moved to the dispatch queue. */
  datatype State = State(rqs: Requests, readSide: Side, writeSide: Side,
                         batching: nat, starved: nat, lastSector: nat, now: int, issued: seq<Id>)

  const U32: nat := 0x1_0000_0000

  function Get(s: State, w: bool): (side: Side) {
    if w then s.writeSide else s.readSide
  }

  function Put(s: State, w: bool, side: Side): (s': State) {
    if w then s.(writeSide := side) else s.(readSide := side)
  }

  // ---- removal and dispatch ----

  /** deadline_del_rq_rb on one direction's queues. */
  function DelRqRb(side: Side, id: Id): (side': Side) {
    side.(tree := Without(side.tree, id),
          next := if side.next == Some(id) then After(side.tree, id) else side.next)
  }

  /** deadline_remove_request. */
  function Removed(side: Side, id: Id): (side': Side) {
    DelRqRb(side.(fifo := Without(side.fifo, id)), id)
  }

  /** What deadline_move_request does to the direction of the request it moves. */
  function Moved(side: Side, id: Id): (side': Side) {
    Removed(side.(next := After(side.tree, id)), id)
  }

  function MoveRequest(s: State, id: Id): (s': State) {
    var rq := Of(s.rqs, id);
    var cleared := s.(readSide := s.readSide.(next := None), writeSide := s.writeSide.(next := None));
    Put(cleared, rq.write, Moved(Get(cleared, rq.write), id)).
    (lastSector := rq.sector + rq.len, issued := s.issued + [id])
  }

  // ---- insertion ----

  function InsertRb(s: State, id: Id): (s': State) {
    var w := Of(s.rqs, id).write;
    Put(s, w, Get(s, w).(tree := Insert(s.rqs, Get(s, w).tree, id)))
  }

  /** deadline_add_rq_rb: a request that starts at the same sector is dispatched first. */
  function AddRqRb(s: State, id: Id): (s': State) {
    match AliasOf(s.rqs, Get(s, Of(s.rqs, id).write).tree, Of(s.rqs, id).sector)
    case Some(alias) => InsertRb(MoveRequest(s, alias), id)
    case None => InsertRb(s, id)
  }

  function Expiry(t: Tunables, w: bool): (e: nat) {
    if w then t.writeExpire else t.readExpire
  }

  function Queue(s: State, w: bool, id: Id): (s': State) {
    Put(s, w, Get(s, w).(fifo := Get(s, w).fifo + [id]))
  }

  /** A new request, which expires a fixed time from now. */
  function Registered(t: Tunables, s: State, id: Id, w: bool, sector: nat, len: nat): (s': State) {
    s.(rqs := s.rqs[id := Request(w, sector, len, s.now + Expiry(t, w))])
  }

  /** deadline_add_request. */
  function AddRequest(t: Tunables, s: State, id: Id, w: bool, sector: nat, len: nat): (s': State) {
    Queue(AddRqRb(Registered(t, s, id, w, sector, len), id), w, id)
  }

  // ---- merging ----

  function TakeOff(s: State, id: Id): (s': State) {
    var w := Of(s.rqs, id).write;
    Put(s, w, Get(s, w).(tree := Without(Get(s, w).tree, id)))
  }

  function Resized(rqs: Requests, id: Id, sector: nat, len: nat): (rqs': Requests) {
    rqs[id := Of(rqs, id).(sector := sector, len := len)]
  }

  /** A bio merged in front of a request: it now starts earlier and moves in the tree. */
  function FrontMerge(s: State, id: Id, sector: nat, len: nat): (s': State) {
    AddRqRb(TakeOff(s, id).(rqs := Resized(s.rqs, id, sector, len)), id)
  }

  /** The fifo with id taken out and put back right after the entry `at`. */
  function MoveAfter(fifo: seq<Id>, id: Id, at: Id): (r: seq<Id>) {
    if fifo == [] then []
    else if fifo[0] == id then MoveAfter(fifo[1..], id, at)
    else if fifo[0] == at then [at, id] + Without(fifo[1..], id)
    else [fifo[0]] + MoveAfter(fifo[1..], id, at)
  }

  predicate Sooner(rqs: Requests, next: Id, id: Id) {
    Of(rqs, next).expire < Of(rqs, id).expire
  }

  function Joined(rqs: Requests, side: Side, id: Id, next: Id): (side': Side) {
    Removed(if Sooner(rqs, next, id) then side.(fifo := MoveAfter(side.fifo, id, next)) else side, next)
  }

  function JoinedRequests(rqs: Requests, id: Id, next: Id): (rqs': Requests) {
    if Sooner(rqs, next, id) then rqs[id := Of(rqs, id).(expire := Of(rqs, next).expire)] else rqs
  }

  /** deadline_merged_requests: `next` is absorbed by `id`, which takes the earlier deadline
      and the place that goes with it. */
  function MergedRequests(s: State, id: Id, next: Id): (s': State) {
    var w := Of(s.rqs, id).write;
    Put(s, w, Joined(s.rqs, Get(s, w), id, next)).(rqs := JoinedRequests(s.rqs, id, next))
  }

  // ---- dispatch ----

  function Issue(s: State, id: Id): (s': State) {
    MoveRequest(s.(batching := (s.batching + 1) % U32), id)
  }

  /** deadline_check_fifo. */
  predicate HeadExpired(s: State, w: bool)
    requires Get(s, w).fifo != []
  {
    s.now > Of(s.rqs, Get(s, w).fifo[0]).expire
  }

  /** dispatch_find_request: the best request of a direction. */
  function FindRequest(s: State, w: bool): (s': State)
    requires Get(s, w).fifo != [] && Get(s, w).tree != []
  {
    var side := Get(s, w);
    if HeadExpired(s, w) then Issue(s.(batching := 0), side.fifo[0])
    else if side.next.Some? then Issue(s, side.next.value)
    else Issue(s.(batching := 0), side.tree[0])
  }

  /** The two BUG_ONs. */
  predicate NoBug(s: State) {
    && (s.readSide.fifo != [] ==> s.readSide.tree != [])
    && (s.writeSide.fifo != [] ==> s.writeSide.tree != [])
  }

  /** Not running a batch: choose a direction. */
  function Select(t: Tunables, s: State): (s': State)
    requires NoBug(s)
  {
    var anyReads, anyWrites := s.readSide.fifo != [], s.writeSide.fifo != [];
    if anyReads then
      if anyWrites && s.starved >= t.writesStarved then FindRequest(s.(starved := 0), true)
      else FindRequest(s.(starved := if anyWrites then (s.starved + 1) % U32 else s.starved), false)
    else if anyWrites then FindRequest(s.(starved := 0), true)
    else s
  }

  function Candidate(s: State): (rq: Option<Id>) {
    if s.writeSide.next.Some? then s.writeSide.next else s.readSide.next
  }

  /** The batch counter as the call finds it: a jump in sectors ends the batch. */
  function Charged(t: Tunables, s: State): (b: nat) {
    if Candidate(s).Some? && s.lastSector != Of(s.rqs, Candidate(s).value).sector then (s.batching + t.fifoBatch) % U32
    else s.batching
  }

  predicate InBatch(t: Tunables, s: State) {
    Candidate(s).Some? && Charged(t, s) < t.fifoBatch
  }

  /** deadline_dispatch_requests. */
  function Dispatch(t: Tunables, s: State): (s': State)
    requires NoBug(s)
  {
    var s1 := s.(batching := Charged(t, s));
    if InBatch(t, s) then Issue(s1, Candidate(s).value) else Select(t, s1)
  }

  // ---- runs ----

  datatype Step =
    | Add(id: Id, write: bool, sector: nat, len: nat)
    | GrowFront(id: Id, sector: nat, len: nat)
    | GrowBack(id: Id, len: nat)
    | Join(id: Id, next: Id)
    | DispatchOne
    | Tick(now: int)

  predicate Queued(s: State, id: Id) {
    id in Get(s, Of(s.rqs, id).write).fifo
  }

  predicate Enabled(s: State, step: Step) {
    match step
    case Add(id, _, _, _) => id !in s.rqs
    case GrowFront(id, _, _) => Queued(s, id)
    case GrowBack(id, _) => Queued(s, id)
    case Join(id, next) =>
      Queued(s, id) && Queued(s, next) && id != next && Of(s.rqs, id).write == Of(s.rqs, next).write
    case DispatchOne => true
    case Tick(now) => s.now <= now
  }

  function Apply(t: Tunables, s: State, step: Step): (s': State)
    requires NoBug(s)
  {
    match step
    case Add(id, w, sector, len) => AddRequest(t, s, id, w, sector, len)
    case GrowFront(id, sector, len) => FrontMerge(s, id, sector, len)
    case GrowBack(id, len) => s.(rqs := Resized(s.rqs, id, Of(s.rqs, id).sector, len))
    case Join(id, next) => MergedRequests(s, id, next)
    case DispatchOne => Dispatch(t, s)
    case Tick(now) => s.(now := now)
  }

  /** deadline_init_queue. */
  function Start(now: int): (s: State) {
    State(map[], Side([], [], None), Side([], [], None), 0, 0, 0, now, [])
  }
}
