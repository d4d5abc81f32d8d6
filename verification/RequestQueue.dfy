/**
 The request queue as it is updated in place.  The functions its users call find and leave a
 state that some run of the steps of `OrderedQueue` reaches, so that what is proved of every
 run holds after every sequence of calls, as `Promises` says.
 */
module RequestQueue {
  import opened Lists
  import opened OrderedQueue
  import opened OrderedStages
  import opened OrderedBarriers

  /** What holds after every sequence of calls: no BUG_ON has fired, no request was ended
      twice, each barrier was ended by its own sequence when its last stage was done, and on a
      queue that orders by draining no request was handed out on the wrong side of a barrier. */
  ghost predicate Promises(cfg: Config, q: Queue) {
    && !q.bug && EndsOnce(q.log) && SequencesRight(q.log) && !JustCompleted(q.log)
    && (SeqOpen(q.log) <==> InProgress(q))
    && (Draining(cfg) ==> OrderKept(q.log) && MergesStayPut(q.log) && OnlySequencesEndBarriers(q.log) && !q.warned)
  }

  lemma ReachableKeeps(cfg: Config, q: Queue)
    requires Reachable(cfg, q)
    ensures Promises(cfg, q)
  {
    hide EndsOnce, SequencesRight, JustCompleted, SeqOpen, OrderKept, MergesStayPut, OnlySequencesEndBarriers;
    var run :| ValidRun(cfg, EMPTY_QUEUE, run) && After(cfg, EMPTY_QUEUE, run) == q;
    BarrierEndsOnce(cfg, run);
    if Draining(cfg) { BarrierOrder(cfg, run); }
  }

  lemma EmptyReachable(cfg: Config)
    ensures Reachable(cfg, EMPTY_QUEUE)
  {
    assert ValidRun(cfg, EMPTY_QUEUE, []) && After(cfg, EMPTY_QUEUE, []) == EMPTY_QUEUE;
  }

  /** One more call. */
  lemma CallKeeps(cfg: Config, q: Queue, ev: Event)
    requires Reachable(cfg, q) && Enabled(cfg, q, ev)
    ensures Reachable(cfg, Apply(cfg, q, ev)) && Promises(cfg, Apply(cfg, q, ev))
  {
    hide Reachable, Promises;
    ReachNext(cfg, q, ev);
    ReachableKeeps(cfg, Apply(cfg, q, ev));
  }

  /** One sweep of the head: directions and sectors of the requests, and the sector the last
      request sent to the device ended at. */
  datatype Sweep = Sweep(write: Id -> bool, sector: Id -> nat, boundary: nat)

  /** Does the sweep come by a before b?  What lies ahead of the boundary comes first. */
  predicate ComesFirst(sweep: Sweep, a: Id, b: Id) {
    var ahead, ahead' := sweep.sector(a) >= sweep.boundary, sweep.sector(b) >= sweep.boundary;
    if ahead == ahead' then sweep.sector(a) < sweep.sector(b) else ahead
  }

  predicate MayPass(q: Queue, sweep: Sweep, id: Id, at: Id) {
    var rq := Rq(q, at);
    !rq.soft && !rq.hard && !rq.started && sweep.write(at) == sweep.write(id)
  }

  predicate Passable(q: Queue, sweep: Sweep, id: Id, lo: nat, hi: nat)
    requires hi <= |q.list|
  {
    forall k :: lo <= k < hi ==> MayPass(q, sweep, id, q.list[k])
  }

  predicate InSweep(sweep: Sweep, ids: seq<Id>) {
    forall i, j :: 0 <= i < j < |ids| ==> !ComesFirst(sweep, ids[j], ids[i])
  }

  /** A request put in front of those it comes before, and behind one it does not. */
  lemma SweepKept(sweep: Sweep, list: seq<Id>, k: nat, pos: nat, id: Id)
    requires k <= pos <= |list| && InSweep(sweep, list[k..])
    requires forall i :: pos <= i < |list| ==> ComesFirst(sweep, id, list[i])
    requires pos > k ==> !ComesFirst(sweep, id, list[pos - 1])
    ensures InSweep(sweep, (list[..pos] + [id] + list[pos..])[k..])
  {
    var was, now, p := list[k..], (list[..pos] + [id] + list[pos..])[k..], pos - k;
    assert now == was[..p] + [id] + was[p..];
    forall i, j | 0 <= i < j < |now| ensures !ComesFirst(sweep, now[j], now[i]) {
      if i == p { assert now[j] == was[j - 1] == list[j - 1 + k]; }
      else if j == p { assert was[p - 1] == list[pos - 1] && now[i] == was[i]; }
      else { assert now[i] == was[if i < p then i else i - 1] && now[j] == was[if j < p then j else j - 1]; }
    }
  }

  class Elevator {
    const cfg: Config
    var rqs: map<Id, Request>
    var ordcolor: bool
    var ordseq: set<int>
    var orderr: int
    var origBar: Id
    var list: seq<Id>
    var sorted: set<Id>
    var flight: set<Id>
    var inFlight: int
    var bug: bool
    var warned: bool
    var arrivals: nat
    var epoch: nat
    var retired: nat
    var log: seq<Obs>

    function View(): Queue
      reads this
    {
      Queue(rqs, ordcolor, ordseq, orderr, origBar, list, sorted, flight, inFlight, bug, warned,
            arrivals, epoch, retired, log)
    }

    ghost predicate Valid()
      reads this
    {
      Reachable(cfg, View())
    }

    constructor (cfg: Config)
      ensures this.cfg == cfg && View() == EMPTY_QUEUE && Valid() && Promises(cfg, View())
    {
      this.cfg := cfg;
      EmptyReachable(cfg);
      ReachableKeeps(cfg, EMPTY_QUEUE);
      rqs, ordcolor, ordseq, orderr, origBar := map[], false, {}, 0, 0;
      list, sorted, flight, inFlight := [], {}, {}, 0;
      bug, warned, arrivals, epoch, retired, log := false, false, 0, 0, 0, [];
    }

    method OrderedCompleteSeq(stage: int, error: int)
      modifies this
      ensures View() == CompleteSeq(old(View()), stage, error)
    {
      if error != 0 && orderr == 0 { orderr := error; }
      if stage in ordseq { bug := true; }
      ordseq := ordseq + {stage};
      log := log + [StageDone(stage, error)];
      if CurSeq(ordseq) != DONE { return; }
      ordseq := {};
      retired := retired + 1;
      log := log + [BarrierEnded(origBar, orderr)];
    }

    method InsertFront(id: Id, rq: Request)
      modifies this`rqs, this`list
      ensures View() == Push(old(View()), id, rq)
    {
      rqs := rqs[id := rq.(soft := true)];
      list := [id] + list;
    }

    method SkipStage(stage: int)
      modifies this`ordseq, this`log
      ensures View() == MarkSkipped(old(View()), stage)
    {
      ordseq := ordseq + {stage};
      log := log + [StageDone(stage, 0)];
    }

    method Unlink()
      requires list != []
      modifies this
      ensures View() == Unlinked(old(View()))
    {
      var id := list[0];
      if Account(Rq(View(), id)) { inFlight := inFlight + 1; }
      orderr := 0;
      ordseq := ordseq + {STARTED};
      list := list[1..];
      origBar := id;
      log := log + [SeqStarted(id)];
    }

    /** The embedded requests are stacked at the head, so the last stage goes first. */
    method QueueStages(mode: Mode)
      requires mode.Ordered?
      modifies this`rqs, this`list, this`ordseq, this`log
      ensures View() == StackProxies(mode, old(View()))
    {
      if mode.postflush { InsertFront(POST_FLUSH_RQ, FLUSH_REQUEST); } else { SkipStage(POSTFLUSH); }
      InsertFront(BAR_RQ, PROXY_REQUEST);
      if mode.preflush { InsertFront(PRE_FLUSH_RQ, FLUSH_REQUEST); } else { SkipStage(PREFLUSH); }
    }

    method Start(mode: Mode) returns (ok: bool)
      requires mode.Ordered? && list != []
      modifies this
      ensures (View(), ok) == StartOrdered(mode, old(View()))
    {
      Unlink();
      QueueStages(mode);
      ok := mode.tag || inFlight == 0;
      if ok { SkipStage(DRAIN); }
    }

    method DoOrderedHead(mode: Mode) returns (ok: bool)
      requires mode.Ordered? && list != []
      modifies this
      ensures (View(), ok) == DoOrdered(mode, old(View()))
    {
      var id, rq := list[0], Rq(View(), list[0]);
      if ordseq == {} {
        if !IsBarrier(rq) { return true; }
        ok := Start(mode);
        return;
      }
      if !rq.fs && id != PRE_FLUSH_RQ && id != POST_FLUSH_RQ { return true; }
      if mode.tag { return !(IsBarrier(rq) && id != BAR_RQ); }
      var reqSeq, curSeq := ReqSeq(View(), id), CurSeq(ordseq);
      if reqSeq < curSeq { warned := true; }
      return reqSeq <= curSeq;
    }

    /** On a queue without barriers: end the barriers at the head. */
    method RejectBarriers(mode: Mode)
      requires mode.Unsupported?
      modifies this
      ensures NextCandidate(mode, old(View())) == (View(), list != [])
    {
      while list != [] && ordseq == {} && IsBarrier(Rq(View(), list[0]))
        invariant NextCandidate(mode, View()) == NextCandidate(mode, old(View()))
        decreases |list|
      {
        log := log + [Ended(list[0], -EOPNOTSUPP)];
        list := list[1..];
        retired := retired + 1;
      }
    }

    method MarkHead()
      requires list != []
      modifies this
      ensures View() == MarkStarted(old(View()))
      ensures list == old(list) && Rq(View(), list[0]).started
    {
      var rq := Rq(View(), list[0]);
      if !rq.started {
        log := log + IssueObs(View(), list[0]);
        rqs := rqs[list[0] := rq.(started := true)];
      }
    }

    /** The request the driver works on next, if there is one. */
    method ElvNextRequest() returns (id: Option<Id>)
      requires Valid()
      modifies this
      ensures Valid() && Promises(cfg, View()) && View() == Apply(cfg, old(View()), NextRequest)
      ensures id.Some? ==> list != [] && id.value == list[0] && Rq(View(), id.value).started
    {
      hide Reachable, Promises, DoOrdered, MarkStarted;
      CallKeeps(cfg, View(), NextRequest);
      var ok := false;
      if cfg.mode.Ordered? {
        if list != [] { ok := DoOrderedHead(cfg.mode); }
      } else {
        RejectBarriers(cfg.mode);
        ok := list != [];
      }
      if !ok || list == [] { return None; }
      MarkHead();
      return Some(list[0]);
    }

    /** The driver takes a request it was handed. */
    method ElvDequeueRequest(i: nat)
      requires Valid() && i < |list| && Rq(View(), list[i]).started
      modifies this
      ensures Valid() && Promises(cfg, View()) && View() == Apply(cfg, old(View()), Dequeued(i))
    {
      hide Reachable, Promises;
      CallKeeps(cfg, View(), Dequeued(i));
      var id := list[i];
      list := list[..i] + list[i + 1..];
      if Account(Rq(View(), id)) { inFlight := inFlight + 1; }
      flight := flight + {id};
    }

    method FindRequeuePos(id: Id) returns (pos: nat)
      ensures pos == RequeuePos(View(), id, 0)
    {
      pos := 0;
      while pos < |list| && ReqSeq(View(), id) > ReqSeq(View(), list[pos])
        invariant pos <= |list|
        invariant RequeuePos(View(), id, 0) == RequeuePos(View(), id, pos)
      {
        pos := pos + 1;
      }
    }

    /** The driver gives a request back. */
    method ElvRequeueRequest(id: Id)
      requires Valid() && id in flight
      modifies this
      ensures Valid() && Promises(cfg, View()) && View() == Apply(cfg, old(View()), Requeued(id))
    {
      hide Reachable, Promises, ReqSeq;
      CallKeeps(cfg, View(), Requeued(id));
      var rq := Rq(View(), id);
      if Account(rq) { inFlight := inFlight - 1; }
      flight := flight - {id};
      rqs := rqs[id := rq.(started := false, soft := true)];
      var pos := 0;
      if ordseq != {} { pos := FindRequeuePos(id); }
      list := list[..pos] + [id] + list[pos..];
    }

    method ElvCompletedRequest(id: Id)
      modifies this
      ensures View() == CheckDrained(Returned(old(View()), id))
    {
      hide CompleteSeq, ReqSeq;
      if Account(Rq(View(), id)) { inFlight := inFlight - 1; }
      flight := flight - {id};
      CheckQueue();
    }

    /** The drain stage ends when nothing that belongs before the barrier is left. */
    method CheckQueue()
      modifies this
      ensures View() == CheckDrained(old(View()))
    {
      hide CompleteSeq, ReqSeq;
      if ordseq != {} && inFlight == 0 && CurSeq(ordseq) == DRAIN {
        if list == [] { bug := true; return; }
        if ReqSeq(View(), list[0]) > DRAIN { OrderedCompleteSeq(DRAIN, 0); }
      }
    }

    /** The driver ends a request. */
    method EndThatRequestLast(id: Id, uptodate: int)
      requires Valid() && id in flight
      modifies this
      ensures Valid() && Promises(cfg, View()) && View() == Apply(cfg, old(View()), Completed(id, uptodate))
    {
      hide Reachable, Promises, CheckDrained, CompleteSeq;
      CallKeeps(cfg, View(), Completed(id, uptodate));
      if 0 <= id { log := log + [Ended(id, ErrorOf(uptodate))]; }
      ElvCompletedRequest(id);
      if id < 0 { OrderedCompleteSeq(StageOf(id), ErrorOf(uptodate)); }
    }

    /** `moves` is what the I/O scheduler does when it is told to dispatch everything. */
    method DrainElevator(moves: seq<Move>)
      requires MayDrain(View(), moves)
      modifies this`list, this`sorted
      ensures View() == DrainSorted(old(View()), moves)
    {
      var k := 0;
      while k < |moves|
        invariant k <= |moves|
        invariant MayDrain(View(), moves[k..])
        invariant DrainSorted(View(), moves[k..]) == DrainSorted(old(View()), moves)
      {
        var m := moves[k];
        assert moves[k..][1..] == moves[k + 1..];
        sorted := sorted - {m.id};
        list := list[..m.pos] + [m.id] + list[m.pos..];
        k := k + 1;
      }
    }

    method StampRequest(ev: Event)
      requires ev.Add?
      modifies this
      ensures View() == Stamped(old(View()), ev)
    {
      rqs := rqs[arrivals := Request(ev.fs, ev.hard, ordcolor, ev.soft, false, epoch)];
      log := log + [Queued(arrivals, ev.fs, ev.fs && ev.hard)];
      if ev.hard { ordcolor := !ordcolor; }
      if ev.fs && ev.hard { epoch := epoch + 1; }
      arrivals := arrivals + 1;
    }

    method InsertList(id: Id, pos: nat)
      requires pos <= |list|
      modifies this`rqs, this`list
      ensures View() == InsertAt(SetSoft(old(View()), id), pos, id)
    {
      rqs := rqs[id := Rq(View(), id).(soft := true)];
      list := list[..pos] + [id] + list[pos..];
    }

    method ElvAddRequest(ev: Event)
      requires Valid() && ev.Add? && Enabled(cfg, View(), ev)
      modifies this
      ensures Valid() && Promises(cfg, View()) && View() == Apply(cfg, old(View()), ev)
    {
      hide Reachable, Promises, DrainSorted, MayDrain;
      CallKeeps(cfg, View(), ev);
      var id := arrivals;
      if ActualWhere(ev) == Back {
        DrainElevator(ev.moves);
        StampRequest(ev);
        InsertList(id, |list|);
      } else {
        StampRequest(ev);
        if ActualWhere(ev) == Front { InsertList(id, 0); } else { sorted := sorted + {id}; }
      }
    }

    /** Where elv_dispatch_sort puts a request: going back from the tail of the list, past
        requests it may pass and comes before. */
    method FindSortPos(id: Id, sweep: Sweep) returns (pos: nat)
      ensures pos <= |list|
      ensures forall k :: pos <= k < |list| ==> MayPass(View(), sweep, id, list[k]) && ComesFirst(sweep, id, list[k])
      ensures pos > 0 && MayPass(View(), sweep, id, list[pos - 1]) ==> !ComesFirst(sweep, id, list[pos - 1])
    {
      pos := |list|;
      while pos > 0
        invariant pos <= |list|
        invariant forall k :: pos <= k < |list| ==>
                    MayPass(View(), sweep, id, list[k]) && ComesFirst(sweep, id, list[k])
      {
        var at := list[pos - 1];
        var rq := Rq(View(), at);
        if sweep.write(id) != sweep.write(at) { break; }
        if rq.soft || rq.hard || rq.started { break; }
        if sweep.sector(id) >= sweep.boundary {
          if sweep.sector(at) < sweep.boundary { pos := pos - 1; continue; }
        } else {
          if sweep.sector(at) >= sweep.boundary { break; }
        }
        if sweep.sector(id) >= sweep.sector(at) { break; }
        pos := pos - 1;
      }
    }

    /** The I/O scheduler sorts a request into the dispatch list: it passes no barrier and no
        started request, and a stretch that was in the order of the sweep still is. */
    method ElvDispatchSort(id: Id, sweep: Sweep) returns (pos: nat)
      requires Valid() && id in sorted
      modifies this
      ensures MayDispatch(old(View()), id, pos)
      ensures Valid() && Promises(cfg, View()) && View() == Apply(cfg, old(View()), Dispatched(id, pos))
      ensures forall k :: pos <= k < |old(list)| ==> ComesFirst(sweep, id, old(list)[k])
      ensures forall k: nat :: k <= pos && Passable(old(View()), sweep, id, k, pos) ==>
                InSweep(sweep, old(list)[k..]) ==> InSweep(sweep, list[k..])
    {
      hide Reachable, Promises;
      pos := FindSortPos(id, sweep);
      CallKeeps(cfg, View(), Dispatched(id, pos));
      forall k: nat | k <= pos && Passable(View(), sweep, id, k, pos) && InSweep(sweep, list[k..])
        ensures InSweep(sweep, (list[..pos] + [id] + list[pos..])[k..])
      {
        assert pos > k ==> !ComesFirst(sweep, id, list[pos - 1]);
        SweepKept(sweep, list, k, pos, id);
      }
      sorted := sorted - {id};
      list := list[..pos] + [id] + list[pos..];
    }

    /** The I/O scheduler adds a request at the tail of the dispatch list. */
    method ElvDispatchAddTail(id: Id)
      requires Valid() && id in sorted
      modifies this
      ensures Valid() && Promises(cfg, View()) && View() == Apply(cfg, old(View()), Dispatched(id, |old(list)|))
    {
      hide Reachable, Promises;
      CallKeeps(cfg, View(), Dispatched(id, |list|));
      sorted := sorted - {id};
      assert list[..|list|] + [id] + list[|list|..] == list + [id];
      list := list + [id];
    }

    /** Of two requests the I/O scheduler holds, one is merged into the other and freed. */
    method ElvMergeRequests(kept: Id, gone: Id)
      requires Valid() && kept in sorted && gone in sorted && kept != gone
      modifies this
      ensures Valid() && Promises(cfg, View()) && View() == Apply(cfg, old(View()), MergeAway(kept, gone))
    {
      hide Reachable, Promises, CompleteSeq;
      CallKeeps(cfg, View(), MergeAway(kept, gone));
      sorted := sorted - {gone};
      log := log + [Merged(gone, kept)];
      CheckQueue();
    }
  }
}
