/**
 The ordering guarantee is lost exactly when a request that is not a file system request
 may carry the hard barrier flag: adding it toggles the queue's colour without being a
 barrier for anybody, so requests on the same side of a barrier get different colours.
 */
module OrderedColors {
  import opened OrderedQueue
  import opened OrderedStages
  import opened OrderedBarriers

  const WRITE: Request := Request(true, false, false, false, true, 0)
  const PACKET: Request := Request(false, true, false, true, true, 0)
  const FLUSH: Request := Request(true, true, true, true, false, 0)

  /** A write (0) is in flight. */
  const WRITE_IN_FLIGHT: Queue :=
    Queue(map[0 := WRITE], false, {}, 0, 0, [], {}, {0}, 1, false, false, 1, 0, 0,
          [Queued(0, true, false), Issued(0)])

  /** And so is a packet command with the barrier flag (1), which has changed the colour. */
  const PACKET_IN_FLIGHT: Queue :=
    Queue(map[0 := WRITE, 1 := PACKET], true, {}, 0, 0, [], {}, {0, 1}, 1, false, false, 2, 0, 0,
          [Queued(0, true, false), Issued(0), Queued(1, false, false)])

  /** And a barrier (2) has come. */
  const BARRIER_QUEUED: Queue :=
    Queue(map[0 := WRITE, 1 := PACKET, 2 := FLUSH], false, {}, 0, 0, [2], {}, {0, 1}, 1, false, false, 3, 1, 0,
          [Queued(0, true, false), Issued(0), Queued(1, false, false), Queued(2, true, true)])

  lemma ReachIssued(cfg: Config)
    ensures Reachable(cfg, WRITE_IN_FLIGHT.(list := [0], flight := {}, inFlight := 0))
  {
    hide Reachable;
    assert Reachable(cfg, EMPTY_QUEUE) by { ReachEmpty(cfg); }
    var q0 := EMPTY_QUEUE;
    var add := Add(true, false, false, true, Sort, []);
    ReachNext(cfg, q0, add);
    var q1 := Apply(cfg, q0, add);
    assert q1.sorted == {0} && q1.list == [] && q1.rqs == map[0 := WRITE.(started := false)];
    ReachNext(cfg, q1, Dispatched(0, 0));
    var q2 := Apply(cfg, q1, Dispatched(0, 0));
    assert q2.sorted == {} && q2.list == [0];
    ReachNext(cfg, q2, NextRequest);
    var q3 := Apply(cfg, q2, NextRequest);
    assert q3.list == [0] && q3.rqs == map[0 := WRITE];
    assert q3 == WRITE_IN_FLIGHT.(list := [0], flight := {}, inFlight := 0);
  }

  lemma ReachEmpty(cfg: Config)
    ensures Reachable(cfg, EMPTY_QUEUE)
  {
    assert ValidRun(cfg, EMPTY_QUEUE, []) && After(cfg, EMPTY_QUEUE, []) == EMPTY_QUEUE;
  }

  lemma ReachWrite(cfg: Config)
    ensures Reachable(cfg, WRITE_IN_FLIGHT)
  {
    hide Reachable;
    ReachIssued(cfg);
    var q := WRITE_IN_FLIGHT.(list := [0], flight := {}, inFlight := 0);
    ReachNext(cfg, q, Dequeued(0));
    assert Apply(cfg, q, Dequeued(0)) == WRITE_IN_FLIGHT;
  }

  lemma AddPacket(cfg: Config)
    requires cfg.pcBarriers
    ensures Reachable(cfg,
                      PACKET_IN_FLIGHT.(list := [1], flight := {0},
                                      rqs := map[0 := WRITE, 1 := PACKET.(started := false)]))
  {
    hide Reachable;
    ReachWrite(cfg);
    var add := Add(false, true, false, false, Back, []);
    ReachNext(cfg, WRITE_IN_FLIGHT, add);
    var q := Apply(cfg, WRITE_IN_FLIGHT, add);
    assert q.list == [1] && q.rqs == map[0 := WRITE, 1 := PACKET.(started := false)];
    assert q == PACKET_IN_FLIGHT.(list := [1], flight := {0}, rqs := q.rqs);
  }

  lemma ReachPacket(cfg: Config)
    requires cfg.pcBarriers
    ensures Reachable(cfg, PACKET_IN_FLIGHT)
  {
    hide Reachable;
    AddPacket(cfg);
    var q1 := PACKET_IN_FLIGHT.(list := [1], flight := {0}, rqs := map[0 := WRITE, 1 := PACKET.(started := false)]);
    ReachNext(cfg, q1, NextRequest);
    var q2 := Apply(cfg, q1, NextRequest);
    assert q2.list == [1] && q2.rqs == map[0 := WRITE, 1 := PACKET];
    assert q2.log == PACKET_IN_FLIGHT.log;
    ReachNext(cfg, q2, Dequeued(0));
    assert Apply(cfg, q2, Dequeued(0)) == PACKET_IN_FLIGHT;
  }

  lemma ReachBarrier(cfg: Config)
    requires cfg.pcBarriers
    ensures Reachable(cfg, BARRIER_QUEUED)
  {
    hide Reachable;
    ReachPacket(cfg);
    var add := Add(true, true, false, true, Sort, []);
    ReachNext(cfg, PACKET_IN_FLIGHT, add);
    var q := Apply(cfg, PACKET_IN_FLIGHT, add);
    assert q.rqs == map[0 := WRITE, 1 := PACKET, 2 := FLUSH];
    assert q == BARRIER_QUEUED;
  }

  /** The barrier's sequence has started and not yet got to its own write. */
  ghost predicate Sequencing(q: Queue, proxies: seq<Id>, flight: set<Id>) {
    && q.list == proxies && q.flight == flight && q.sorted == {} && q.origBar == 2 && STARTED in q.ordseq &&
       BAR !in q.ordseq
    && (PREFLUSH in q.ordseq <==> PRE_FLUSH_RQ !in proxies)
    && Rq(q, 0).fs && !Rq(q, 0).color && !Rq(q, 1).fs && Rq(q, 2).color
    && Rq(q, BAR_RQ).fs && !Rq(q, BAR_RQ).started && !Rq(q, PRE_FLUSH_RQ).started && !Rq(q, PRE_FLUSH_RQ).fs
    && |q.log| > 0 && q.log[0] == Queued(0, true, false)
  }

  lemma StackedList(mode: Mode, u: Queue, q: Queue)
    requires mode.Ordered? && u.list == [] && q == StackProxies(mode, u)
    ensures q.list == ProxyList(mode)
  {
  }

  lemma StackedMarks(mode: Mode, u: Queue, q: Queue)
    requires mode.Ordered? && u.ordseq == {STARTED} && q == StackProxies(mode, u)
    ensures STARTED in q.ordseq && BAR !in q.ordseq && DRAIN !in q.ordseq
    ensures PREFLUSH in q.ordseq <==> PRE_FLUSH_RQ !in ProxyList(mode)
  {
  }

  lemma StackedRequests(mode: Mode, u: Queue, q: Queue)
    requires mode.Ordered? && u.log != [] && q == StackProxies(mode, u)
    requires !Rq(u, PRE_FLUSH_RQ).started && !Rq(u, PRE_FLUSH_RQ).fs
    ensures forall x :: 0 <= x ==> Rq(q, x) == Rq(u, x)
    ensures Rq(q, BAR_RQ).fs && !Rq(q, BAR_RQ).started && !Rq(q, PRE_FLUSH_RQ).started && !Rq(q, PRE_FLUSH_RQ).fs
    ensures |q.log| > 0 && q.log[0] == u.log[0]
  {
    var post := if mode.postflush then Push(u, POST_FLUSH_RQ, FLUSH_REQUEST) else MarkSkipped(u, POSTFLUSH);
    var bar := Push(post, BAR_RQ, PROXY_REQUEST);
    hide Push, MarkSkipped, Rq;
    Pushed(u, POST_FLUSH_RQ, FLUSH_REQUEST);
    Skipped(u, POSTFLUSH);
    Pushed(post, BAR_RQ, PROXY_REQUEST);
    Pushed(bar, PRE_FLUSH_RQ, FLUSH_REQUEST);
    Skipped(bar, PREFLUSH);
  }

  lemma Pushed(q: Queue, id: Id, rq: Request)
    ensures var q' := Push(q, id, rq); Rq(q', id) == rq.(soft := true) && q'.log == q.log
    ensures forall x :: x != id ==> Rq(Push(q, id, rq), x) == Rq(q, x)
  {
  }

  lemma Skipped(q: Queue, stage: int)
    ensures forall x :: Rq(MarkSkipped(q, stage), x) == Rq(q, x)
    ensures q.log != [] ==> MarkSkipped(q, stage).log != [] && MarkSkipped(q, stage).log[0] == q.log[0]
  {
  }

  lemma Stacked(cfg: Config, u: Queue) returns (q: Queue)
    requires cfg.mode.Ordered? && u == Unlinked(BARRIER_QUEUED)
    ensures q == StackProxies(cfg.mode, u) && Sequencing(q, ProxyList(cfg.mode), {0, 1})
    ensures q.inFlight == 1 && Rq(q, 0).started && DRAIN !in q.ordseq
  {
    q := StackProxies(cfg.mode, u);
    assert u.list == [] && u.log[0] == Queued(0, true, false) && u.ordseq == {STARTED};
    hide ProxyList;
    StackedList(cfg.mode, u, q);
    StackedMarks(cfg.mode, u, q);
    StackedRequests(cfg.mode, u, q);
  }

  lemma ReachStart(cfg: Config) returns (q: Queue)
    requires cfg.pcBarriers && cfg.mode.Ordered? && !cfg.mode.tag
    ensures Reachable(cfg, q) && Sequencing(q, ProxyList(cfg.mode), {0, 1})
    ensures q.inFlight == 1 && Rq(q, 0).started && DRAIN !in q.ordseq
  {
    hide Reachable, Sequencing, StackProxies;
    ReachBarrier(cfg);
    ReachNext(cfg, BARRIER_QUEUED, NextRequest);
    q := Stacked(cfg, Unlinked(BARRIER_QUEUED));
  }

  function ProxyList(mode: Mode): seq<Id>
    requires mode.Ordered?
  {
    (if mode.preflush then [PRE_FLUSH_RQ] else []) + [BAR_RQ] + (if mode.postflush then [POST_FLUSH_RQ] else [])
  }

  /** The write comes back: its colour puts it behind the barrier it was added before. */
  lemma RequeuedBehind(mode: Mode, p: Queue, q: Queue)
    requires mode.Ordered? && Sequencing(p, ProxyList(mode), {0, 1}) && q == Requeue(p, 0)
    ensures q.list == ProxyList(mode) + [0]
  {
    var back := Returned(p, 0).(rqs := p.rqs[0 := Rq(p, 0).(started := false, soft := true)]);
    assert ReqSeq(back, 0) == DONE && forall k :: 0 <= k < |back.list| ==> ReqSeq(back, back.list[k]) < DONE;
    assert RequeuePos(back, 0, 0) == |back.list|;
  }

  lemma ReachRequeue(cfg: Config) returns (q: Queue)
    requires cfg.pcBarriers && cfg.mode.Ordered? && !cfg.mode.tag
    ensures Reachable(cfg, q) && Sequencing(q, ProxyList(cfg.mode) + [0], {1})
    ensures q.inFlight == 0 && DRAIN !in q.ordseq
  {
    hide Reachable, RequeuePos;
    var p := ReachStart(cfg);
    ReachNext(cfg, p, Requeued(0));
    q := Apply(cfg, p, Requeued(0));
    RequeuedBehind(cfg.mode, p, q);
  }

  /** The packet command ends, and the queue counts as drained. */
  lemma ReachDrained(cfg: Config) returns (q: Queue)
    requires cfg.pcBarriers && cfg.mode.Ordered? && !cfg.mode.tag
    ensures Reachable(cfg, q) && Sequencing(q, ProxyList(cfg.mode) + [0], {}) && DRAIN in q.ordseq
  {
    hide Reachable;
    var p := ReachRequeue(cfg);
    ReachNext(cfg, p, Completed(1, 1));
    q := Apply(cfg, p, Completed(1, 1));
    assert ReqSeq(p, p.list[0]) > DRAIN;
  }

  function FromBar(mode: Mode): seq<Id>
    requires mode.Ordered?
  {
    [BAR_RQ] + (if mode.postflush then [POST_FLUSH_RQ] else []) + [0]
  }

  lemma NextIsPreFlush(cfg: Config, p: Queue)
    requires cfg.mode.Ordered? && !cfg.mode.tag && cfg.mode.preflush
    requires Sequencing(p, [PRE_FLUSH_RQ] + FromBar(cfg.mode), {}) && DRAIN in p.ordseq
    ensures Next(cfg.mode, p) == p.(rqs := p.rqs[PRE_FLUSH_RQ := Rq(p, PRE_FLUSH_RQ).(started := true)])
  {
    assert p.log + [] == p.log;
    assert CurSeq(p.ordseq) == PREFLUSH && ReqSeq(p, p.list[0]) == PREFLUSH;
  }

  /** A pre-flush is issued. */
  lemma ReachPreFlush(cfg: Config) returns (q: Queue)
    requires cfg.pcBarriers && cfg.mode.Ordered? && !cfg.mode.tag && cfg.mode.preflush
    ensures Reachable(cfg, q) && DRAIN in q.ordseq && PREFLUSH !in q.ordseq
    ensures Sequencing(q.(ordseq := q.ordseq + {PREFLUSH}, rqs := q.rqs[PRE_FLUSH_RQ := FLUSH_REQUEST]),
                       FromBar(cfg.mode), {PRE_FLUSH_RQ})
  {
    hide Reachable, Next, FromBar;
    var p := ReachDrained(cfg);
    assert p.list == [PRE_FLUSH_RQ] + FromBar(cfg.mode) by { ListFromBar(cfg.mode); }
    ReachNext(cfg, p, NextRequest);
    NextIsPreFlush(cfg, p);
    var p1 := Next(cfg.mode, p);
    ReachNext(cfg, p1, Dequeued(0));
    q := Dequeue(p1, 0);
    assert q.list == FromBar(cfg.mode);
    assert PRE_FLUSH_RQ !in FromBar(cfg.mode) by { ListFromBar(cfg.mode); }
  }

  lemma ListFromBar(mode: Mode)
    requires mode.Ordered?
    ensures mode.preflush ==> ProxyList(mode) + [0] == [PRE_FLUSH_RQ] + FromBar(mode)
    ensures PRE_FLUSH_RQ !in FromBar(mode)
  {
  }

  /** The pre-flush, if there is one, ends. */
  lemma ReachFlushed(cfg: Config) returns (q: Queue)
    requires cfg.pcBarriers && cfg.mode.Ordered? && !cfg.mode.tag
    ensures Reachable(cfg, q) && q.list == FromBar(cfg.mode) && q.origBar == 2
    ensures STARTED in q.ordseq && DRAIN in q.ordseq && PREFLUSH in q.ordseq && BAR !in q.ordseq
    ensures Rq(q, BAR_RQ).fs && !Rq(q, BAR_RQ).started && |q.log| > 0 && q.log[0] == Queued(0, true, false)
  {
    hide Reachable;
    if cfg.mode.preflush {
      var p := ReachPreFlush(cfg);
      ReachNext(cfg, p, Completed(PRE_FLUSH_RQ, 1));
      q := Apply(cfg, p, Completed(PRE_FLUSH_RQ, 1));
    } else {
      q := ReachDrained(cfg);
    }
  }

  /** The barrier's write is issued while a write added before it still waits. */
  lemma OutOfOrder(cfg: Config) returns (q: Queue)
    requires cfg.pcBarriers && cfg.mode.Ordered? && !cfg.mode.tag
    ensures Reachable(cfg, q) && !OrderKept(q.log)
  {
    var p := ReachFlushed(cfg);
    ReachNext(cfg, p, NextRequest);
    q := Apply(cfg, p, NextRequest);
    assert q.log == p.log + [BarrierIssued(2)];
    var run :| ValidRun(cfg, EMPTY_QUEUE, run) && After(cfg, EMPTY_QUEUE, run) == p;
    RunKeeps(cfg, EMPTY_QUEUE, run);
    assert Alive(p, 0) && !HasEnd(p.log, 0);
    assert q.log[..|p.log|] == p.log;
    assert !InOrder(q.log[..|p.log|], q.log[|p.log|]) by { assert p.log[0].id < 2; }
  }

  /** For a queue that orders by draining, every run keeps barriers in order if and only
      if no request other than a file system request carries the hard barrier flag. */
  lemma OrderedExactlyWhen(cfg: Config)
    requires cfg.mode.Ordered? && !cfg.mode.tag
    ensures OrderedAlways(cfg) <==> !cfg.pcBarriers
  {
    if cfg.pcBarriers {
      var q := OutOfOrder(cfg);
      var run :| ValidRun(cfg, EMPTY_QUEUE, run) && After(cfg, EMPTY_QUEUE, run) == q;
    } else {
      forall run | ValidRun(cfg, EMPTY_QUEUE, run) ensures OrderKept(After(cfg, EMPTY_QUEUE, run).log) {
        BarrierOrder(cfg, run);
      }
    }
  }

  // ---- run by run ----

  /** Does this call add a request that is not a file system request with the barrier flag? */
  predicate Flagged(ev: Event) {
    ev.Add? && ev.hard && !ev.fs
  }

  predicate NoneFlagged(run: seq<Event>) {
    forall i :: 0 <= i < |run| ==> !Flagged(run[i])
  }

  /** A run that does not use the permission is one without it. */
  lemma {:induction false} WithoutPermission(cfg: Config, q: Queue, run: seq<Event>)
    requires ValidRun(cfg, q, run) && NoneFlagged(run)
    ensures var cfg' := cfg.(pcBarriers := false); ValidRun(cfg', q, run) && After(cfg', q, run) == After(cfg, q, run)
    decreases |run|
  {
    if run != [] {
      assert !Flagged(run[0]);
      assert forall i :: 0 <= i < |run[1..]| ==> run[1..][i] == run[i + 1];
      var cfg' := cfg.(pcBarriers := false);
      assert Enabled(cfg', q, run[0]) && Apply(cfg', q, run[0]) == Apply(cfg, q, run[0]);
      WithoutPermission(cfg, Apply(cfg, q, run[0]), run[1..]);
    }
  }

  /** So every run keeps barriers in order in which no such request is added, permitted or not. */
  lemma OrderedUnlessFlagged(cfg: Config, run: seq<Event>)
    requires cfg.mode.Ordered? && !cfg.mode.tag && ValidRun(cfg, EMPTY_QUEUE, run) && NoneFlagged(run)
    ensures var q := After(cfg, EMPTY_QUEUE, run);
            OrderKept(q.log) && MergesStayPut(q.log) && OnlySequencesEndBarriers(q.log) && !q.warned
  {
    WithoutPermission(cfg, EMPTY_QUEUE, run);
    BarrierOrder(cfg.(pcBarriers := false), run);
  }
}
