/**
 The queue of asynchronous crypto requests and its one worker: requests beyond the limit wait
 as a backlog, and are told with -EINPROGRESS when they come within it.
 */
module CryptoQueue {
  import opened Lists

  type Id = int

  /** The queue; `backlog` is the first request over the limit. */
  datatype Queue = Queue(list: seq<Id>, backlog: Option<Id>, maxQlen: nat)

  function Empty(maxQlen: nat): (q: Queue) {
    Queue([], None, maxQlen)
  }

  datatype Answer = InProgress | Busy

  /** crypto_enqueue_request: whether the request was taken, and the answer. */
  function Enqueue(q: Queue, id: Id, mayBacklog: bool): (r: (Queue, bool, Answer)) {
    if |q.list| < q.maxQlen then (q.(list := q.list + [id]), true, InProgress)
    else if !mayBacklog then (q, false, Busy)
    else (q.(list := q.list + [id], backlog := if q.backlog == None then Some(id) else q.backlog), true, Busy)
  }

  /** The request after one in the list. */
  function Next(list: seq<Id>, id: Id): (next: Option<Id>) {
    if list == [] then None
    else if list[0] == id then (if |list| > 1 then Some(list[1]) else None)
    else Next(list[1..], id)
  }

  /** crypto_dequeue_request. */
  function Dequeue(q: Queue): (q': Queue)
    requires q.list != []
  {
    q.(list := q.list[1..], backlog := if q.backlog == None then None else Next(q.list, q.backlog.value))
  }

  /** The mark is where the limit is. */
  predicate Marked(q: Queue) {
    q.backlog == if |q.list| > q.maxQlen then Some(q.list[q.maxQlen]) else None
  }

  lemma {:induction false} NextAt(list: seq<Id>, k: nat)
    requires Distinct(list) && k < |list|
    ensures Next(list, list[k]) == if k + 1 < |list| then Some(list[k + 1]) else None
  {
    if k > 0 {
      assert list[k] == list[1..][k - 1] && list[k] in list[1..];
      NextAt(list[1..], k - 1);
    }
  }

  lemma EnqueueMarks(q: Queue, id: Id, mayBacklog: bool)
    requires Marked(q)
    ensures Marked(Enqueue(q, id, mayBacklog).0)
  {
  }

  lemma DequeueMarks(q: Queue)
    requires Marked(q) && Distinct(q.list) && q.list != []
    ensures Marked(Dequeue(q))
  {
    if |q.list| > q.maxQlen { NextAt(q.list, q.maxQlen); }
  }

  class CryptoQueueObj {
    var list: seq<Id>
    var backlog: Option<Id>
    var qlen: nat
    var maxQlen: nat

    ghost function View(): (q: Queue)
      reads this
    {
      Queue(list, backlog, maxQlen)
    }

    /** The count is right, no request is queued twice, and the mark is at the first request
        over the limit, if there is one. */
    ghost predicate Valid()
      reads this
    {
      qlen == |list| && Distinct(list) && Marked(View())
    }

    /** crypto_init_queue. */
    constructor (maxQlen: nat)
      ensures Valid() && View() == Empty(maxQlen)
    {
      list, backlog, qlen, this.maxQlen := [], None, 0, maxQlen;
    }

    /** -EBUSY exactly when the limit was reached; the request is refused exactly when it may
        not wait either. */
    method EnqueueRequest(id: Id, mayBacklog: bool) returns (err: Answer)
      requires Valid() && id !in list
      modifies this
      ensures Valid() && maxQlen == old(maxQlen)
      ensures View() == Enqueue(old(View()), id, mayBacklog).0
      ensures err == Busy <==> |old(list)| >= maxQlen
      ensures list == if err == Busy && !mayBacklog then old(list) else old(list) + [id]
      ensures err == Busy && mayBacklog && |old(list)| == maxQlen ==> backlog == Some(id)
    {
      DistinctSnoc(list, id);
      EnqueueMarks(View(), id, mayBacklog);
      err := InProgress;
      if qlen >= maxQlen {
        err := Busy;
        if !mayBacklog { return; }
        if backlog == None { backlog := Some(id); }
      }
      qlen := qlen + 1;
      list := list + [id];
    }

    /** First in, first out; the mark moves on to the next request over the limit. */
    method DequeueRequest() returns (id: Option<Id>)
      requires Valid()
      modifies this
      ensures Valid() && maxQlen == old(maxQlen)
      ensures old(list) == [] ==> id == None && View() == old(View())
      ensures old(list) != [] ==> id == Some(old(list)[0]) && View() == Dequeue(old(View()))
      ensures |list| > maxQlen ==> backlog == Some(list[maxQlen])
    {
      if qlen == 0 { return None; }
      DequeueMarks(View());
      qlen := qlen - 1;
      if backlog != None { backlog := Next(list, backlog.value); }
      id := Some(list[0]);
      list := list[1..];
    }
  }

  // ---- the worker ----

  datatype Event =
    | Accepted(id: Id, over: bool)
    | Refused(id: Id)
    | Notified(id: Id)      // complete(req, -EINPROGRESS)
    | Finished(id: Id)      // the final completion

  /** What the worker holds: nothing, a request and a backlog to notify first, or a request. */
  datatype Worker = Idle | Took(backlog: Option<Id>, req: Id) | Ready(req: Id)

  datatype State = State(queue: Queue, worker: Worker, log: seq<Event>)

  datatype Step = Submit(id: Id, mayBacklog: bool) | Take | Notify | Finish

  predicate Seen(log: seq<Event>, id: Id) {
    exists i :: 0 <= i < |log| && log[i].id == id
  }

  predicate Enabled(s: State, step: Step) {
    match step
    case Submit(id, _) => !Seen(s.log, id)
    case Take => s.worker == Idle && s.queue.list != []
    case Notify => s.worker.Took?
    case Finish => s.worker.Ready?
  }

  function Apply(s: State, step: Step): (s': State)
    requires Enabled(s, step)
  {
    match step
    case Submit(id, mayBacklog) =>
      var (q, taken, answer) := Enqueue(s.queue, id, mayBacklog);
      s.(queue := q, log := s.log + [if taken then Accepted(id, answer == Busy) else Refused(id)])
    case Take =>
      s.(queue := Dequeue(s.queue), worker := Took(s.queue.backlog, s.queue.list[0]))
    case Notify =>
      var log := if s.worker.backlog.Some? then s.log + [Notified(s.worker.backlog.value)] else s.log;
      s.(worker := Ready(s.worker.req), log := log)
    case Finish =>
      s.(worker := Idle, log := s.log + [Finished(s.worker.req)])
  }

  // ---- what the log says ----

  function AcceptedIds(log: seq<Event>): (ids: seq<Id>) {
    if log == [] then [] else
      var e, ids := log[|log| - 1], AcceptedIds(log[..|log| - 1]);
      if e.Accepted? then ids + [e.id] else ids
  }

  function OverIds(log: seq<Event>): (ids: seq<Id>) {
    if log == [] then [] else
      var e, ids := log[|log| - 1], OverIds(log[..|log| - 1]);
      if e.Accepted? && e.over then ids + [e.id] else ids
  }

  function NotifiedIds(log: seq<Event>): (ids: seq<Id>) {
    if log == [] then [] else
      var e, ids := log[|log| - 1], NotifiedIds(log[..|log| - 1]);
      if e.Notified? then ids + [e.id] else ids
  }

  function FinishedIds(log: seq<Event>): (ids: seq<Id>) {
    if log == [] then [] else
      var e, ids := log[|log| - 1], FinishedIds(log[..|log| - 1]);
      if e.Finished? then ids + [e.id] else ids
  }

  /** A request that was over the limit is notified before it is finished. */
  predicate NotifiedFirst(log: seq<Event>) {
    log == [] || (
      var e, before := log[|log| - 1], log[..|log| - 1];
      NotifiedFirst(before) && (e.Finished? && e.id in OverIds(before) ==> e.id in NotifiedIds(before)))
  }

  function Held(w: Worker): (ids: seq<Id>) {
    match w
    case Idle => []
    case Took(_, req) => [req]
    case Ready(req) => [req]
  }

  function ToNotify(w: Worker): (ids: seq<Id>) {
    if w.Took? && w.backlog.Some? then [w.backlog.value] else []
  }

  function Waiting(q: Queue): (ids: seq<Id>) {
    if |q.list| > q.maxQlen then q.list[q.maxQlen..] else []
  }

  /** Every accepted request is finished, held or queued, once and in order; every request that
      was over the limit is notified, about to be, or still over it, once and in order. */
  ghost predicate Inv(s: State) {
    && Marked(s.queue)
    && Distinct(AcceptedIds(s.log))
    && AcceptedIds(s.log) == FinishedIds(s.log) + Held(s.worker) + s.queue.list
    && OverIds(s.log) == NotifiedIds(s.log) + ToNotify(s.worker) + Waiting(s.queue)
    && (forall id :: id in AcceptedIds(s.log) ==> Seen(s.log, id))
    && NotifiedFirst(s.log)
  }

  // ---- every run ----

  /** One more event. */
  lemma Logged(log: seq<Event>, e: Event)
    ensures AcceptedIds(log + [e]) == if e.Accepted? then AcceptedIds(log) + [e.id] else AcceptedIds(log)
    ensures OverIds(log + [e]) == if e.Accepted? && e.over then OverIds(log) + [e.id] else OverIds(log)
    ensures NotifiedIds(log + [e]) == if e.Notified? then NotifiedIds(log) + [e.id] else NotifiedIds(log)
    ensures FinishedIds(log + [e]) == if e.Finished? then FinishedIds(log) + [e.id] else FinishedIds(log)
    ensures NotifiedFirst(log + [e]) <==>
              NotifiedFirst(log) && (e.Finished? && e.id in OverIds(log) ==> e.id in NotifiedIds(log))
  {
    assert (log + [e])[..|log|] == log;
  }

  lemma SeenMore(log: seq<Event>, e: Event, ids: seq<Id>)
    requires forall id :: id in ids ==> Seen(log, id)
    ensures forall id :: id in ids + [e.id] ==> Seen(log + [e], id)
  {
    forall id | id in ids + [e.id] ensures Seen(log + [e], id) {
      if id in ids {
        var i :| 0 <= i < |log| && log[i].id == id;
        assert (log + [e])[i].id == id;
      } else {
        assert (log + [e])[|log|].id == id;
      }
    }
  }

  lemma SubmitKeeps(s: State, id: Id, mayBacklog: bool)
    requires Inv(s) && !Seen(s.log, id)
    ensures Inv(Apply(s, Submit(id, mayBacklog)))
  {
    var s' := Apply(s, Submit(id, mayBacklog));
    var e := s'.log[|s.log|];
    Logged(s.log, e);
    SeenMore(s.log, e, AcceptedIds(s.log));
    EnqueueMarks(s.queue, id, mayBacklog);
    if e.Accepted? {
      DistinctSnoc(AcceptedIds(s.log), id);
      var f, h := FinishedIds(s.log), Held(s.worker);
      assert (f + h + s.queue.list) + [id] == f + h + (s.queue.list + [id]);
      WaitingMore(s.queue, id, s'.queue, e.over);
      var n, w := NotifiedIds(s.log), ToNotify(s.worker);
      assert e.over ==> (n + w + Waiting(s.queue)) + [id] == n + w + (Waiting(s.queue) + [id]);
    }
  }

  lemma WaitingMore(q: Queue, id: Id, q': Queue, over: bool)
    requires q'.list == q.list + [id] && q'.maxQlen == q.maxQlen && (over <==> |q.list| >= q.maxQlen)
    ensures Waiting(q') == if over then Waiting(q) + [id] else Waiting(q)
  {
  }

  lemma TakeKeeps(s: State)
    requires Inv(s) && Enabled(s, Take)
    ensures Inv(Apply(s, Take))
  {
    var s' := Apply(s, Take);
    var f, list := FinishedIds(s.log), s.queue.list;
    assert f + [] + list == f + list;
    DistinctParts(f, list);
    DequeueMarks(s.queue);
    assert f + list == f + [list[0]] + list[1..];
    var n := NotifiedIds(s.log);
    assert n + [] + Waiting(s.queue) == n + Waiting(s.queue);
    assert Waiting(s.queue) == ToNotify(s'.worker) + Waiting(s'.queue);
    assert n + (ToNotify(s'.worker) + Waiting(s'.queue)) == n + ToNotify(s'.worker) + Waiting(s'.queue);
  }

  lemma NotifyKeeps(s: State)
    requires Inv(s) && Enabled(s, Notify)
    ensures Inv(Apply(s, Notify))
  {
    var n := NotifiedIds(s.log);
    if s.worker.backlog.Some? {
      var e := Notified(s.worker.backlog.value);
      Logged(s.log, e);
      SeenMore(s.log, e, AcceptedIds(s.log));
      assert (n + [e.id]) + [] + Waiting(s.queue) == n + [e.id] + Waiting(s.queue);
    }
  }

  lemma WaitingQueued(q: Queue, x: Id)
    requires x !in q.list
    ensures x !in Waiting(q)
  {
  }

  /** A request the worker is about to finish is no longer over the limit. */
  lemma AlreadyNotified(s: State)
    requires Inv(s) && s.worker.Ready? && s.worker.req in OverIds(s.log)
    ensures s.worker.req in NotifiedIds(s.log)
  {
    var f, id := FinishedIds(s.log), s.worker.req;
    DistinctParts(f + [id], s.queue.list);
    assert id in f + [id];
    WaitingQueued(s.queue, id);
    assert NotifiedIds(s.log) + [] == NotifiedIds(s.log);
  }

  lemma FinishKeeps(s: State)
    requires Inv(s) && Enabled(s, Finish)
    ensures Inv(Apply(s, Finish))
  {
    var e := Finished(s.worker.req);
    Logged(s.log, e);
    SeenMore(s.log, e, AcceptedIds(s.log));
    if e.id in OverIds(s.log) { AlreadyNotified(s); }
    assert (FinishedIds(s.log) + [e.id]) + [] == FinishedIds(s.log) + [e.id];
  }

  /** Every step keeps the protocol. */
  lemma StepKeeps(s: State, step: Step)
    requires Inv(s) && Enabled(s, step)
    ensures Inv(Apply(s, step))
  {
    match step
    case Submit(id, mayBacklog) => SubmitKeeps(s, id, mayBacklog);
    case Take => TakeKeeps(s);
    case Notify => NotifyKeeps(s);
    case Finish => FinishKeeps(s);
  }

  predicate ValidRun(s: State, steps: seq<Step>)
    decreases |steps|
  {
    steps == [] || (Enabled(s, steps[0]) && ValidRun(Apply(s, steps[0]), steps[1..]))
  }

  function RunFrom(s: State, steps: seq<Step>): (s': State)
    requires ValidRun(s, steps)
    decreases |steps|
  {
    if steps == [] then s else RunFrom(Apply(s, steps[0]), steps[1..])
  }

  lemma {:induction false} RunKeeps(s: State, steps: seq<Step>)
    requires Inv(s) && ValidRun(s, steps)
    ensures Inv(RunFrom(s, steps))
    decreases |steps|
  {
    if steps != [] {
      StepKeeps(s, steps[0]);
      RunKeeps(Apply(s, steps[0]), steps[1..]);
    }
  }

  /** The protocol, over every run and for every limit: final completions are given once, in the
      order of acceptance; -EINPROGRESS is given once, in that order too, to exactly the requests
      accepted over the limit, and before the final completion.  When the worker has caught up
      nothing is outstanding. */
  lemma {:induction false} Protocol(maxQlen: nat, steps: seq<Step>)
    requires ValidRun(State(Empty(maxQlen), Idle, []), steps)
    ensures var s := RunFrom(State(Empty(maxQlen), Idle, []), steps);
            && Distinct(AcceptedIds(s.log))
            && FinishedIds(s.log) <= AcceptedIds(s.log)
            && NotifiedIds(s.log) <= OverIds(s.log)
            && NotifiedFirst(s.log)
            && (s.worker == Idle && s.queue.list == [] ==>
                  FinishedIds(s.log) == AcceptedIds(s.log) && NotifiedIds(s.log) == OverIds(s.log))
  {
    var s0 := State(Empty(maxQlen), Idle, []);
    RunKeeps(s0, steps);
  }
}
