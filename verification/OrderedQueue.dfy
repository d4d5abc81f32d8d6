/**
 The barrier machinery of a request queue: the dispatch list, the requests an
 I/O scheduler still holds, the requests the driver owns, and the ordered
 sequence (drain, pre-flush, barrier, post-flush) that carries out one barrier.
 Every operation run under the queue lock is one atomic step on a `Queue` value.
 */
module OrderedQueue {

  // Stage bits of `ordseq`.
  const STARTED: int := 0x01
  const DRAIN: int := 0x02
  const PREFLUSH: int := 0x04
  const BAR: int := 0x08
  const POSTFLUSH: int := 0x10
  const DONE: int := 0x20

  const EIO: int := 5
  const EOPNOTSUPP: int := 95

  /** A request is known by a number: its place in the order of arrival, or one of the
      three numbers below for the requests embedded in the queue itself. */
  type Id = int

  const PRE_FLUSH_RQ: Id := -1
  const BAR_RQ: Id := -2
  const POST_FLUSH_RQ: Id := -3

  /** `epoch` is history: the number of file system barriers that arrived earlier. */
  datatype Request = Request(fs: bool, hard: bool, color: bool, soft: bool, started: bool, epoch: nat)

  const BLANK_REQUEST: Request := Request(false, false, false, false, false, 0)
  const FLUSH_REQUEST: Request := Request(false, true, false, true, false, 0)
  const PROXY_REQUEST: Request := Request(true, true, false, true, false, 0)

  datatype Mode = Unsupported | Ordered(tag: bool, preflush: bool, postflush: bool)

  /** `pcBarriers`: callers may add a request that is not a file system request and
      still carries the hard barrier flag. */
  datatype Config = Config(mode: Mode, pcBarriers: bool)

  /** What an observer of the queue sees, in order. */
  datatype Obs =
    | Queued(id: Id, fs: bool, barrier: bool)
    | Merged(id: Id, into: Id)
    | Issued(id: Id)
    | BarrierIssued(id: Id)
    | SeqStarted(id: Id)
    | StageDone(stage: int, error: int)
    | Ended(id: Id, error: int)
    | BarrierEnded(id: Id, error: int)

  /** `list` is the dispatch list, `sorted` what the I/O scheduler holds, `flight` what
      the driver owns.  `bug`: a BUG_ON fired, or the list head was read as a request
      while the list was empty.  `warned`: the WARN_ON on a stage that comes too late
      fired.  `arrivals`, `epoch`, `retired` (barriers whose processing is over) and
      `log` are history. */
  datatype Queue = Queue(
    rqs: map<Id, Request>,
    ordcolor: bool, ordseq: set<int>, orderr: int, origBar: Id,
    list: seq<Id>, sorted: set<Id>, flight: set<Id>, inFlight: int,
    bug: bool, warned: bool,
    arrivals: nat, epoch: nat, retired: nat, log: seq<Obs>)

  const EMPTY_QUEUE: Queue :=
    Queue(map[], false, {}, 0, 0, [], {}, {}, 0, false, false, 0, 0, 0, [])

  function Rq(q: Queue, id: Id): Request {
    if id in q.rqs then q.rqs[id] else BLANK_REQUEST
  }

  predicate Account(rq: Request) {
    rq.started && rq.fs
  }

  predicate IsBarrier(rq: Request) {
    rq.fs && rq.hard
  }

  /** The stage in progress: the lowest bit not yet set. */
  function CurSeq(ordseq: set<int>): int {
    if ordseq == {} then 0
    else if STARTED !in ordseq then STARTED
    else if DRAIN !in ordseq then DRAIN
    else if PREFLUSH !in ordseq then PREFLUSH
    else if BAR !in ordseq then BAR
    else if POSTFLUSH !in ordseq then POSTFLUSH
    else DONE
  }

  /** The stage in which a request may be issued. */
  function ReqSeq(q: Queue, id: Id): int {
    if id == PRE_FLUSH_RQ then PREFLUSH
    else if id == BAR_RQ then BAR
    else if id == POST_FLUSH_RQ then POSTFLUSH
    else if !Rq(q, id).fs then DRAIN
    else if Rq(q, id).color == Rq(q, q.origBar).color then DRAIN
    else DONE
  }

  function Observe(q: Queue, o: Obs): Queue {
    q.(log := q.log + [o])
  }

  function CompleteSeq(q: Queue, stage: int, error: int): Queue {
    var marked := Observe(q, StageDone(stage, error))
                  .(orderr := if error != 0 && q.orderr == 0 then error else q.orderr,
                    bug := q.bug || stage in q.ordseq,
                    ordseq := q.ordseq + {stage});
    if CurSeq(marked.ordseq) != DONE then marked
    else Observe(marked, BarrierEnded(q.origBar, marked.orderr)).(ordseq := {}, retired := q.retired + 1)
  }

  function Push(q: Queue, id: Id, rq: Request): Queue {
    q.(rqs := q.rqs[id := rq.(soft := true)], list := [id] + q.list)
  }

  function MarkSkipped(q: Queue, stage: int): Queue {
    Observe(q, StageDone(stage, 0)).(ordseq := q.ordseq + {stage})
  }

  /** Take the barrier off the head of the list. */
  function Unlinked(q: Queue): Queue
    requires q.list != []
  {
    var id := q.list[0];
    Observe(q, SeqStarted(id)).(
      orderr := 0, ordseq := q.ordseq + {STARTED}, origBar := id, list := q.list[1..],
      inFlight := q.inFlight + if Account(Rq(q, id)) then 1 else 0)
  }

  /** Stack the embedded requests at the head, last stage first. */
  function StackProxies(mode: Mode, q: Queue): Queue
    requires mode.Ordered?
  {
    var post := if mode.postflush then Push(q, POST_FLUSH_RQ, FLUSH_REQUEST) else MarkSkipped(q, POSTFLUSH);
    var bar := Push(post, BAR_RQ, PROXY_REQUEST);
    if mode.preflush then Push(bar, PRE_FLUSH_RQ, FLUSH_REQUEST) else MarkSkipped(bar, PREFLUSH)
  }

  function StartOrdered(mode: Mode, q: Queue): (Queue, bool)
    requires mode.Ordered? && q.list != []
  {
    var stacked := StackProxies(mode, Unlinked(q));
    if mode.tag || stacked.inFlight == 0 then (MarkSkipped(stacked, DRAIN), true) else (stacked, false)
  }

  /** May the request at the head of the list be handed out? */
  function DoOrdered(mode: Mode, q: Queue): (Queue, bool)
    requires mode.Ordered? && q.list != []
  {
    var id, rq := q.list[0], Rq(q, q.list[0]);
    if q.ordseq == {} then
      if IsBarrier(rq) then StartOrdered(mode, q) else (q, true)
    else if !rq.fs && id != PRE_FLUSH_RQ && id != POST_FLUSH_RQ then (q, true)
    else if mode.tag then (q, !(IsBarrier(rq) && id != BAR_RQ))
    else (q.(warned := q.warned || ReqSeq(q, id) < CurSeq(q.ordseq)), ReqSeq(q, id) <= CurSeq(q.ordseq))
  }

  /** End a barrier on a queue that does not support barriers. */
  function Reject(q: Queue): Queue
    requires q.list != []
  {
    Observe(q, Ended(q.list[0], -EOPNOTSUPP)).(list := q.list[1..], retired := q.retired + 1)
  }

  /** Look at the head of the list until it is settled whether the driver gets one.
      Requests the I/O scheduler holds reach the list by steps of their own. */
  function NextCandidate(mode: Mode, q: Queue): (Queue, bool)
    decreases |q.list|
  {
    if q.list == [] then (q, false)
    else if mode.Ordered? then DoOrdered(mode, q)
    else if q.ordseq == {} && IsBarrier(Rq(q, q.list[0])) then NextCandidate(mode, Reject(q))
    else (q, true)
  }

  function IssueObs(q: Queue, id: Id): seq<Obs> {
    if id == BAR_RQ then [BarrierIssued(q.origBar)]
    else if 0 <= id && Rq(q, id).fs then [Issued(id)]
    else []
  }

  /** Hand the head of the list to the driver: the first hand-over is the issue. */
  function MarkStarted(q: Queue): Queue
    requires q.list != []
  {
    var id, rq := q.list[0], Rq(q, q.list[0]);
    if rq.started then q
    else q.(rqs := q.rqs[id := rq.(started := true)], log := q.log + IssueObs(q, id))
  }

  function Next(mode: Mode, q: Queue): Queue {
    var (q', ok) := NextCandidate(mode, q);
    if ok && q'.list != [] then MarkStarted(q') else q'
  }

  function Dequeue(q: Queue, i: nat): Queue
    requires i < |q.list|
  {
    var id := q.list[i];
    q.(list := q.list[..i] + q.list[i + 1..], flight := q.flight + {id},
       inFlight := q.inFlight + if Account(Rq(q, id)) then 1 else 0)
  }

  function InsertAt(q: Queue, pos: nat, id: Id): Queue
    requires pos <= |q.list|
  {
    q.(list := q.list[..pos] + [id] + q.list[pos..])
  }

  /** The request is released by the driver. */
  function Returned(q: Queue, id: Id): Queue {
    q.(flight := q.flight - {id}, inFlight := q.inFlight - if Account(Rq(q, id)) then 1 else 0)
  }

  /** Where a requeued request goes: in front of the first request of its own or a later stage. */
  function RequeuePos(q: Queue, id: Id, from: nat): (pos: nat)
    requires from <= |q.list|
    ensures from <= pos <= |q.list|
    ensures forall k :: from <= k < pos ==> ReqSeq(q, q.list[k]) < ReqSeq(q, id)
    ensures pos < |q.list| ==> ReqSeq(q, id) <= ReqSeq(q, q.list[pos])
    decreases |q.list| - from
  {
    if from == |q.list| || ReqSeq(q, id) <= ReqSeq(q, q.list[from]) then from
    else RequeuePos(q, id, from + 1)
  }

  function Requeue(q: Queue, id: Id): Queue {
    var q' := Returned(q, id).(rqs := q.rqs[id := Rq(q, id).(started := false, soft := true)]);
    InsertAt(q', if q.ordseq == {} then 0 else RequeuePos(q', id, 0), id)
  }

  /** After a request was released: the drain stage ends when nothing that belongs
      before the barrier is left. */
  function CheckDrained(q: Queue): Queue {
    if q.ordseq != {} && q.inFlight == 0 && CurSeq(q.ordseq) == DRAIN then
      if q.list == [] then q.(bug := true)
      else if ReqSeq(q, q.list[0]) > DRAIN then CompleteSeq(q, DRAIN, 0)
      else q
    else q
  }

  function ErrorOf(uptodate: int): int {
    if uptodate > 0 then 0 else if uptodate == 0 then -EIO else uptodate
  }

  function StageOf(id: Id): int {
    if id == PRE_FLUSH_RQ then PREFLUSH else if id == BAR_RQ then BAR else POSTFLUSH
  }

  function Complete(q: Queue, id: Id, uptodate: int): Queue {
    var left := Returned(q, id);
    if 0 <= id then CheckDrained(Observe(left, Ended(id, ErrorOf(uptodate))))
    else CompleteSeq(CheckDrained(left), StageOf(id), ErrorOf(uptodate))
  }

  /** An I/O scheduler moves a request to the dispatch list.  It may be sorted in, but
      never past a request that is started or a barrier of either kind. */
  predicate MayDispatch(q: Queue, id: Id, pos: nat) {
    && id in q.sorted && pos <= |q.list|
    && forall k :: pos <= k < |q.list| ==>
         var rq := Rq(q, q.list[k]); !rq.soft && !rq.hard && !rq.started
  }

  function Dispatch(q: Queue, id: Id, pos: nat): Queue
    requires pos <= |q.list|
  {
    InsertAt(q.(sorted := q.sorted - {id}), pos, id)
  }

  datatype Move = Move(id: Id, pos: nat)

  /** A forced dispatch empties the I/O scheduler, in any order. */
  predicate MayDrain(q: Queue, moves: seq<Move>)
    decreases |moves|
  {
    if moves == [] then q.sorted == {}
    else MayDispatch(q, moves[0].id, moves[0].pos) && MayDrain(Dispatch(q, moves[0].id, moves[0].pos), moves[1..])
  }

  function DrainSorted(q: Queue, moves: seq<Move>): Queue
    requires MayDrain(q, moves)
    decreases |moves|
  {
    if moves == [] then q else DrainSorted(Dispatch(q, moves[0].id, moves[0].pos), moves[1..])
  }

  datatype Where = Front | Back | Sort

  datatype Event =
    | Add(fs: bool, hard: bool, soft: bool, priv: bool, at: Where, moves: seq<Move>)
    | Dispatched(id: Id, pos: nat)
    | MergeAway(kept: Id, gone: Id)
    | NextRequest
    | Dequeued(i: nat)
    | Requeued(id: Id)
    | Completed(id: Id, uptodate: int)

  /** Barriers of either kind, and requests without scheduler data, go to the back. */
  function ActualWhere(ev: Event): Where
    requires ev.Add?
  {
    if ev.at == Sort && (ev.hard || ev.soft || !ev.priv) then Back else ev.at
  }

  /** Stamp a new request with its arrival, its epoch and the current colour. */
  function Stamped(q: Queue, ev: Event): Queue
    requires ev.Add?
  {
    var rq := Request(ev.fs, ev.hard, q.ordcolor, ev.soft, false, q.epoch);
    Observe(q, Queued(q.arrivals, ev.fs, ev.fs && ev.hard)).(
      rqs := q.rqs[q.arrivals := rq],
      ordcolor := if ev.hard then !q.ordcolor else q.ordcolor,
      arrivals := q.arrivals + 1,
      epoch := if ev.fs && ev.hard then q.epoch + 1 else q.epoch)
  }

  function SetSoft(q: Queue, id: Id): Queue {
    q.(rqs := q.rqs[id := Rq(q, id).(soft := true)])
  }

  /** Add a request; `moves` is what a forced dispatch does first when one is made. */
  function AddRequest(q: Queue, ev: Event): Queue
    requires ev.Add? && (ActualWhere(ev) == Back ==> MayDrain(q, ev.moves))
  {
    var id := q.arrivals;
    match ActualWhere(ev)
    case Front => var s := SetSoft(Stamped(q, ev), id); InsertAt(s, 0, id)
    case Back => var s := SetSoft(Stamped(DrainSorted(q, ev.moves), ev), id); InsertAt(s, |s.list|, id)
    case Sort => Stamped(q, ev).(sorted := q.sorted + {id})
  }

  /** Two requests held by the I/O scheduler become one. */
  function Merge(q: Queue, kept: Id, gone: Id): Queue {
    CheckDrained(Observe(q, Merged(gone, kept)).(sorted := q.sorted - {gone}))
  }

  /** What the callers of the queue keep to: the driver dequeues what it was handed and
      ends or requeues what it owns; only requests that are not file system requests are
      pushed to the front; the sort position is for file system requests. */
  predicate Enabled(cfg: Config, q: Queue, ev: Event) {
    match ev
    case Add(fs, hard, soft, priv, at, moves) =>
      && (fs ==> at != Front)
      && (hard && !fs ==> cfg.pcBarriers)
      && (ActualWhere(ev) == Sort ==> fs)
      && (ActualWhere(ev) == Back ==> MayDrain(q, moves))
    case Dispatched(id, pos) => MayDispatch(q, id, pos)
    case MergeAway(kept, gone) => kept in q.sorted && gone in q.sorted && kept != gone
    case NextRequest => true
    case Dequeued(i) => i < |q.list| && Rq(q, q.list[i]).started
    case Requeued(id) => id in q.flight
    case Completed(id, uptodate) => id in q.flight
  }

  function Apply(cfg: Config, q: Queue, ev: Event): Queue
    requires Enabled(cfg, q, ev)
  {
    match ev
    case Add(_, _, _, _, _, _) => AddRequest(q, ev)
    case Dispatched(id, pos) => Dispatch(q, id, pos)
    case MergeAway(kept, gone) => Merge(q, kept, gone)
    case NextRequest => Next(cfg.mode, q)
    case Dequeued(i) => Dequeue(q, i)
    case Requeued(id) => Requeue(q, id)
    case Completed(id, uptodate) => Complete(q, id, uptodate)
  }

  /** Every step of `run` is one the callers may take. */
  predicate ValidRun(cfg: Config, q: Queue, run: seq<Event>)
    decreases |run|
  {
    run == [] || (Enabled(cfg, q, run[0]) && ValidRun(cfg, Apply(cfg, q, run[0]), run[1..]))
  }

  function After(cfg: Config, q: Queue, run: seq<Event>): Queue
    requires ValidRun(cfg, q, run)
    decreases |run|
  {
    if run == [] then q else After(cfg, Apply(cfg, q, run[0]), run[1..])
  }
}
