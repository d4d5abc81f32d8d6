/**
 Ordering by draining: a barrier's own write is issued only when every file system
 request that was added before the barrier has ended, and no file system request added
 after it is issued before the barrier has ended, in every run, with any number of
 barriers queued, alternating colours, and requests requeued by the driver.
 */
module OrderedBarriers {
  import opened Lists
  import opened OrderedQueue
  import opened OrderedStages

  predicate Draining(cfg: Config) {
    cfg.mode.Ordered? && !cfg.mode.tag && !cfg.pcBarriers
  }

  predicate Fs(q: Queue, id: Id) {
    0 <= id && Rq(q, id).fs
  }

  predicate Barrier(q: Queue, id: Id) {
    0 <= id && IsBarrier(Rq(q, id))
  }

  predicate Odd(n: nat) { n % 2 == 1 }

  function Epoch(q: Queue, id: Id): nat { Rq(q, id).epoch }

  /** Requests that have a place in the order; the embedded requests stand for the
      barrier in progress. */
  predicate Ranked(q: Queue, id: Id) {
    id < 0 || Rq(q, id).fs
  }

  function Rank(q: Queue, id: Id): int {
    if id < 0 then 2 * q.retired + 1
    else 2 * Epoch(q, id) + if Rq(q, id).hard then 1 else 0
  }

  predicate MayPrecede(q: Queue, a: Id, b: Id) {
    Ranked(q, a) && Ranked(q, b) ==> Rank(q, a) <= Rank(q, b) && (0 <= a && Rq(q, a).hard ==> Rank(q, a) < Rank(q, b))
  }

  ghost predicate ListOrdered(q: Queue) {
    forall i, j :: 0 <= i < j < |q.list| ==> MayPrecede(q, q.list[i], q.list[j])
  }

  /** What a request was stamped with: epochs grow with arrivals, past every barrier, and
      the colour is the parity of the epoch. */
  ghost predicate Stamps(q: Queue) {
    && q.ordcolor == Odd(q.epoch)
    && (forall id :: 0 <= id < q.arrivals ==>
          && (Rq(q, id).hard ==> Rq(q, id).fs)
          && Epoch(q, id) + (if Rq(q, id).hard then 1 else 0) <= q.epoch
          && Rq(q, id).color == Odd(Epoch(q, id)))
    && (forall a, b :: 0 <= a < b < q.arrivals ==> Epoch(q, a) + (if Rq(q, a).hard then 1 else 0) <= Epoch(q, b))
  }

  /** The first epoch whose barrier is still on the list. */
  function FirstOpen(q: Queue): nat {
    q.retired + if InProgress(q) then 1 else 0
  }

  ghost predicate HasBarrier(q: Queue, e: nat) {
    exists id :: id in q.list && Barrier(q, id) && Epoch(q, id) == e
  }

  ghost predicate BarriersListed(q: Queue) {
    && FirstOpen(q) <= q.epoch
    && forall e :: FirstOpen(q) <= e < q.epoch ==> HasBarrier(q, e)
  }

  ghost predicate SortedRight(q: Queue) {
    forall id :: id in q.sorted ==>
      var rq := Rq(q, id); rq.fs && !rq.hard && !rq.soft && !rq.started && rq.epoch == q.epoch
  }

  ghost predicate ListRight(q: Queue) {
    forall id :: id in q.list && Fs(q, id) ==>
      var rq := Rq(q, id);
      && q.retired <= rq.epoch
      && (rq.hard ==> rq.soft && !rq.started && FirstOpen(q) <= rq.epoch)
      && (rq.started ==> rq.epoch == q.retired)
      && (InProgress(q) && rq.epoch == q.retired ==> rq.soft && DRAIN !in q.ordseq)
  }

  ghost predicate FlightRight(q: Queue) {
    && (forall id :: id in q.flight ==> Rq(q, id).started)
    && (forall id :: id in q.flight && Fs(q, id) ==>
          var rq := Rq(q, id); !rq.hard && rq.epoch == q.retired && (InProgress(q) ==> DRAIN !in q.ordseq))
    && q.inFlight == |set id | id in q.flight && Rq(q, id).fs|
  }

  ghost predicate OrigRight(q: Queue) {
    InProgress(q) ==> Barrier(q, q.origBar) && Epoch(q, q.origBar) == q.retired
  }

  ghost predicate PlacesRight(q: Queue) {
    && (forall id | IsProxy(id) && (id in q.list || id in q.flight) :: Rq(q, id).hard)
    && SortedRight(q) && ListRight(q) && FlightRight(q) && OrigRight(q)
  }

  // ---- the log ----

  /** What the log says about requests is what was stamped; every request that is nowhere
      has ended; only a sequence ends a barrier; merging stays within an epoch. */
  ghost predicate LogRight(q: Queue) {
    && (forall i :: 0 <= i < |q.log| && q.log[i].Queued? ==>
          && 0 <= q.log[i].id < q.arrivals && q.log[i].fs == Rq(q, q.log[i].id).fs
          && q.log[i].barrier == IsBarrier(Rq(q, q.log[i].id)))
    && (forall id :: 0 <= id < q.arrivals && Rq(q, id).fs ==> Alive(q, id) || HasEnd(q.log, id))
    && (forall i :: 0 <= i < |q.log| && (q.log[i].Ended? || q.log[i].Merged?) ==> !Barrier(q, q.log[i].id))
    && (forall i :: 0 <= i < |q.log| && q.log[i].Merged? ==>
          && 0 <= q.log[i].id < q.arrivals && 0 <= q.log[i].into < q.arrivals && !Barrier(q, q.log[i].into)
          && Epoch(q, q.log[i].id) == Epoch(q, q.log[i].into))
  }

  /** `o` may be the next observation after `before`. */
  ghost predicate InOrder(before: seq<Obs>, o: Obs) {
    && (o.BarrierIssued? ==>
          forall j :: 0 <= j < |before| && before[j].Queued? && before[j].fs && before[j].id < o.id ==>
            HasEnd(before, before[j].id))
    && (o.Issued? ==>
          forall j :: 0 <= j < |before| && before[j].Queued? && before[j].barrier && before[j].id < o.id ==>
            HasEnd(before, before[j].id))
  }

  /** A barrier's write is issued only after everything added before it has ended, and a
      request only after every barrier added before it has ended. */
  ghost predicate OrderKept(log: seq<Obs>) {
    forall i :: 0 <= i < |log| ==> InOrder(log[..i], log[i])
  }

  ghost predicate OrderInv(cfg: Config, q: Queue) {
    && Stamps(q) && ListOrdered(q) && BarriersListed(q) && PlacesRight(q)
    && LogRight(q) && OrderKept(q.log) && !q.warned
  }

  // ---- facts about one state ----

  /** Nothing may stand in front of the barrier of an earlier epoch. */
  lemma HeadIsOldest(q: Queue)
    requires q.list != [] && ListOrdered(q) && BarriersListed(q) && ListRight(q) && Stamps(q)
    requires Fs(q, q.list[0]) && q.list[0] < q.arrivals
    ensures Epoch(q, q.list[0]) <= FirstOpen(q)
  {
    var e := FirstOpen(q);
    if e < q.epoch {
      assert HasBarrier(q, e);
      var b :| b in q.list && Barrier(q, b) && Epoch(q, b) == e;
      var k :| 0 <= k < |q.list| && q.list[k] == b;
      assert k == 0 || MayPrecede(q, q.list[0], q.list[k]);
    }
  }

  lemma Before(q: Queue, i: int, j: int)
    requires ListOrdered(q)
    ensures 0 <= i < j < |q.list| ==> MayPrecede(q, q.list[i], q.list[j])
  {
  }

  lemma RankBound(q: Queue, id: Id)
    requires Stamps(q) && BarriersListed(q) && 0 <= id < q.arrivals
    ensures Rank(q, id) <= 2 * q.epoch
  {
  }

  lemma InsertOrdered(q: Queue, pos: nat, id: Id)
    requires ListOrdered(q) && pos <= |q.list|
    requires forall k :: 0 <= k < pos ==> MayPrecede(q, q.list[k], id)
    requires forall k :: pos <= k < |q.list| ==> MayPrecede(q, id, q.list[k])
    ensures ListOrdered(InsertAt(q, pos, id))
  {
    var q' := InsertAt(q, pos, id);
    forall i, j | 0 <= i < j < |q'.list| ensures MayPrecede(q', q'.list[i], q'.list[j]) {
      var a := if i < pos then q.list[i] else if i == pos then id else q.list[i - 1];
      var b := if j < pos then q.list[j] else if j == pos then id else q.list[j - 1];
      assert q'.list[i] == a && q'.list[j] == b;
      assert MayPrecede(q, a, b);
    }
  }

  lemma RemoveOrdered(q: Queue, i: nat, q': Queue)
    requires ListOrdered(q) && i < |q.list| && q'.list == q.list[..i] + q.list[i + 1..]
    requires q'.retired == q.retired && forall id :: Rq(q', id) == Rq(q, id)
    ensures ListOrdered(q')
  {
    forall a, b | 0 <= a < b < |q'.list| ensures MayPrecede(q', q'.list[a], q'.list[b]) {
      var x, y := if a < i then a else a + 1, if b < i then b else b + 1;
      assert q'.list[a] == q.list[x] && q'.list[b] == q.list[y];
      assert MayPrecede(q, q.list[x], q.list[y]);
    }
  }

  // ---- what a step that changes no stamp keeps ----

  /** Steps change only the `soft` and `started` flags of requests already stamped. */
  ghost predicate SameMarks(q: Queue, q': Queue) {
    forall id :: 0 <= id ==>
      var a, b := Rq(q, id), Rq(q', id);
      a.fs == b.fs && a.hard == b.hard && a.color == b.color && a.epoch == b.epoch
  }

  lemma KeepStamps(q: Queue, q': Queue)
    requires Stamps(q) && SameMarks(q, q')
    requires q'.arrivals == q.arrivals && q'.epoch == q.epoch && q'.ordcolor == q.ordcolor
    ensures Stamps(q')
  {
  }

  lemma KeepBarriers(q: Queue, q': Queue)
    requires BarriersListed(q) && SameMarks(q, q') && q'.epoch == q.epoch && FirstOpen(q') == FirstOpen(q)
    requires forall id :: id in q.list && Barrier(q, id) ==> id in q'.list
    ensures BarriersListed(q')
  {
    forall e | FirstOpen(q) <= e < q.epoch ensures HasBarrier(q', e) {
      assert HasBarrier(q, e);
      var id :| id in q.list && Barrier(q, id) && Epoch(q, id) == e;
      assert id in q'.list && Barrier(q', id) && Epoch(q', id) == e;
    }
  }

  lemma KeepLog(q: Queue, q': Queue)
    requires LogRight(q) && SameMarks(q, q') && q'.log == q.log && q'.arrivals == q.arrivals
    requires forall id :: Fs(q, id) && Alive(q, id) ==> Alive(q', id)
    ensures LogRight(q')
  {
  }

  lemma KeepOrdered(q: Queue, q': Queue)
    requires ListOrdered(q) && SameMarks(q, q') && q'.list == q.list && q'.retired == q.retired
    ensures ListOrdered(q')
  {
    forall i, j | 0 <= i < j < |q'.list| ensures MayPrecede(q', q'.list[i], q'.list[j]) {
      assert MayPrecede(q, q.list[i], q.list[j]);
    }
  }

  // ---- the log ----

  lemma AppendOrder(log: seq<Obs>, o: Obs)
    requires OrderKept(log) && InOrder(log, o)
    ensures OrderKept(log + [o])
  {
    var longer := log + [o];
    forall i | 0 <= i < |longer| ensures InOrder(longer[..i], longer[i]) {
      if i < |log| { assert longer[..i] == log[..i]; } else { assert longer[..i] == log; }
    }
  }

  /** Observations that say nothing new about any request's end or stamp. */
  lemma ObserveRight(q: Queue, o: Obs)
    requires LogRight(q) && !o.Queued? && !o.Ended? && !o.Merged?
    ensures LogRight(Observe(q, o))
  {
    AppendObs(q.log, o);
    var q' := Observe(q, o);
    assert forall i :: 0 <= i < |q.log| ==> q'.log[i] == q.log[i];
  }

  // ---- dispatch ----

  /** A request of a closed epoch has that epoch's barrier behind it. */
  lemma BarrierBehind(q: Queue, k: nat) returns (j: nat)
    requires ListOrdered(q) && BarriersListed(q) && k < |q.list|
    requires Fs(q, q.list[k]) && !Rq(q, q.list[k]).hard
    ensures FirstOpen(q) <= Epoch(q, q.list[k]) < q.epoch ==> k < j < |q.list| && Barrier(q, q.list[j])
  {
    var e := Epoch(q, q.list[k]);
    j := 0;
    if FirstOpen(q) <= e < q.epoch {
      assert HasBarrier(q, e);
      var b :| b in q.list && Barrier(q, b) && Epoch(q, b) == e;
      j :| 0 <= j < |q.list| && q.list[j] == b;
      Before(q, j, k);
    }
  }

  /** Behind the last barrier on the list there are only requests of the current epoch. */
  lemma TailIsNewest(q: Queue, pos: nat, k: nat)
    requires ListOrdered(q) && BarriersListed(q) && PlacesRight(q) && Stamps(q) && pos <= k < |q.list|
    requires forall j :: pos <= j < |q.list| ==> var rq := Rq(q, q.list[j]); !rq.soft && !rq.hard && !rq.started
    requires Fs(q, q.list[k]) && q.list[k] < q.arrivals
    ensures Epoch(q, q.list[k]) == q.epoch
  {
    assert q.list[k] in q.list;
    var j := BarrierBehind(q, k);
  }

  lemma DispatchOrdered(cfg: Config, q: Queue, id: Id, pos: nat)
    requires StageInv(cfg, q) && OrderInv(cfg, q) && MayDispatch(q, id, pos)
    ensures ListOrdered(Dispatch(q, id, pos))
  {
    hide LogMatches, LogRight, OrderKept;
    var q1 := q.(sorted := q.sorted - {id});
    assert ListOrdered(q1);
    forall k | 0 <= k < pos ensures MayPrecede(q1, q1.list[k], id) {
      assert q.list[k] in q.list;
      if 0 <= q.list[k] { RankBound(q, q.list[k]); }
    }
    forall k | pos <= k < |q.list| ensures MayPrecede(q1, id, q1.list[k]) {
      assert q.list[k] in q.list;
      if Fs(q, q.list[k]) { TailIsNewest(q, pos, k); }
    }
    InsertOrdered(q1, pos, id);
  }

  lemma DispatchPlaces(q: Queue, id: Id, pos: nat)
    requires PlacesRight(q) && FirstOpen(q) <= q.epoch && MayDispatch(q, id, pos)
    requires forall x :: x in Dispatch(q, id, pos).list <==> x in q.list || x == id
    requires 0 <= id
    ensures PlacesRight(Dispatch(q, id, pos))
  {
    var q' := Dispatch(q, id, pos);
    assert forall x :: Rq(q', x) == Rq(q, x);
    assert FirstOpen(q') == FirstOpen(q);
    assert (set x | x in q'.flight && Rq(q', x).fs) == (set x | x in q.flight && Rq(q, x).fs);
  }

  lemma DispatchInOrder(cfg: Config, q: Queue, id: Id, pos: nat)
    requires StageInv(cfg, q) && OrderInv(cfg, q) && MayDispatch(q, id, pos)
    ensures OrderInv(cfg, Dispatch(q, id, pos))
  {
    hide Stamps, ListOrdered, OrderKept, LogRight, LogMatches, ProxiesMatch;
    var q' := Dispatch(q, id, pos);
    DispatchOrdered(cfg, q, id, pos);
    InsertHas(q.list, pos, id);
    KeepStamps(q, q');
    KeepBarriers(q, q');
    KeepLog(q, q');
    DispatchPlaces(q, id, pos);
  }

  lemma DrainInOrder(cfg: Config, q: Queue, moves: seq<Move>)
    requires StageInv(cfg, q) && OrderInv(cfg, q) && MayDrain(q, moves)
    ensures OrderInv(cfg, DrainSorted(q, moves))
    decreases |moves|
  {
    if moves != [] {
      DispatchKeeps(cfg, q, moves[0].id, moves[0].pos);
      DispatchInOrder(cfg, q, moves[0].id, moves[0].pos);
      DrainInOrder(cfg, Dispatch(q, moves[0].id, moves[0].pos), moves[1..]);
    }
  }

  // ---- adding a request ----

  /** `q'` is `q` with one more request, put on the back of the list or given to the
      scheduler, or pushed to the front when it is not a file system request. */
  ghost predicate Extends(q: Queue, q': Queue, ev: Event) {
    && ev.Add? && (ev.hard ==> ev.fs)
    && q'.arrivals == q.arrivals + 1
    && (forall x :: x != q.arrivals ==> Rq(q', x) == Rq(q, x))
    && Rq(q', q.arrivals) == Request(ev.fs, ev.hard, q.ordcolor, Rq(q', q.arrivals).soft, false, q.epoch)
    && q'.epoch == q.epoch + (if ev.hard then 1 else 0)
    && q'.ordcolor == (if ev.hard then !q.ordcolor else q.ordcolor)
    && q'.log == q.log + [Queued(q.arrivals, ev.fs, ev.hard)]
    && q'.ordseq == q.ordseq && q'.origBar == q.origBar && q'.retired == q.retired
    && q'.flight == q.flight && q'.inFlight == q.inFlight && q'.warned == q.warned
    && (|| (q'.list == q.list && q'.sorted == q.sorted + {q.arrivals} && !ev.hard && !Rq(q', q.arrivals).soft && ev.fs)
        || (q'.list == q.list + [q.arrivals] && q'.sorted == q.sorted == {} && Rq(q', q.arrivals).soft)
        || (q'.list == [q.arrivals] + q.list && q'.sorted == q.sorted && !ev.fs && !ev.hard))
  }

  lemma ExtendsStamps(q: Queue, q': Queue, ev: Event)
    requires Stamps(q) && Extends(q, q', ev)
    ensures Stamps(q')
  {
    forall a, b | 0 <= a < b < q'.arrivals
      ensures Epoch(q', a) + (if Rq(q', a).hard then 1 else 0) <= Epoch(q', b)
    {
      assert Rq(q', a) == Rq(q, a);
    }
  }

  /** A request already on the list ranks at most with the newest epoch, and its rank
      is what it was. */
  lemma ExtendsRank(q: Queue, q': Queue, ev: Event, k: nat)
    requires OnePlace(q) && Stamps(q) && BarriersListed(q) && ProxiesMatch(q) && Extends(q, q', ev) && k < |q.list|
    ensures var x := q.list[k];
            && Ranked(q', x) == Ranked(q, x) && Rank(q', x) == Rank(q, x) <= 2 * q.epoch
            && (Rq(q', x).hard <==> Rq(q, x).hard) && (0 <= x && Rq(q, x).hard ==> Rank(q, x) < 2 * q.epoch)
  {
    var x := q.list[k];
    assert x in q.list;
    if 0 <= x { RankBound(q, x); }
  }

  lemma ExtendsOrdered(q: Queue, q': Queue, ev: Event)
    requires OnePlace(q) && ProxiesMatch(q) && Stamps(q) && ListOrdered(q) && BarriersListed(q) && Extends(q, q', ev)
    ensures ListOrdered(q')
  {
    var n := q.arrivals;
    forall k | 0 <= k < |q.list|
      ensures var x := q.list[k];
              && Ranked(q', x) == Ranked(q, x) && Rank(q', x) == Rank(q, x) <= 2 * q.epoch
              && (Rq(q', x).hard <==> Rq(q, x).hard) && (0 <= x && Rq(q, x).hard ==> Rank(q, x) < 2 * q.epoch)
    {
      ExtendsRank(q, q', ev, k);
    }
    hide OnePlace, ProxiesMatch, Stamps, BarriersListed;
    forall i, j | 0 <= i < j < |q'.list| ensures MayPrecede(q', q'.list[i], q'.list[j]) {
      var front := if q'.list == [n] + q.list then 1 else 0;
      Before(q, i - front, j - front);
    }
  }

  lemma ExtendsBarriers(q: Queue, q': Queue, ev: Event)
    requires OnePlace(q) && BarriersListed(q) && Extends(q, q', ev)
    ensures BarriersListed(q')
  {
    forall e | FirstOpen(q') <= e < q'.epoch ensures HasBarrier(q', e) {
      if e < q.epoch {
        assert HasBarrier(q, e);
        var id :| id in q.list && Barrier(q, id) && Epoch(q, id) == e;
        assert id in q'.list && Barrier(q', id) && Epoch(q', id) == e;
      } else {
        assert q.arrivals in q'.list && Barrier(q', q.arrivals) && Epoch(q', q.arrivals) == e;
      }
    }
  }

  lemma ExtendsPlaces(q: Queue, q': Queue, ev: Event)
    requires OnePlace(q) && PlacesRight(q) && FirstOpen(q) <= q.epoch && Extends(q, q', ev)
    requires InProgress(q) ==> 0 <= q.origBar < q.arrivals
    ensures PlacesRight(q')
  {
    assert forall x :: x in q'.list ==> x in q.list || x == q.arrivals;
    assert (set x | x in q'.flight && Rq(q', x).fs) == (set x | x in q.flight && Rq(q, x).fs);
  }

  lemma ExtendsKept(q: Queue, q': Queue, ev: Event)
    requires OrderKept(q.log) && Extends(q, q', ev)
    ensures OrderKept(q'.log)
  {
    AppendOrder(q.log, Queued(q.arrivals, ev.fs, ev.hard));
  }

  lemma ExtendsEnds(q: Queue, q': Queue, ev: Event)
    requires LogRight(q) && Extends(q, q', ev)
    ensures forall id :: 0 <= id < q'.arrivals && Rq(q', id).fs ==> Alive(q', id) || HasEnd(q'.log, id)
  {
    AppendObs(q.log, Queued(q.arrivals, ev.fs, ev.hard));
    forall id | 0 <= id < q'.arrivals && Rq(q', id).fs ensures Alive(q', id) || HasEnd(q'.log, id) {
      if id < q.arrivals { assert Alive(q, id) || HasEnd(q.log, id); }
    }
  }

  lemma ExtendsLog(q: Queue, q': Queue, ev: Event)
    requires LogMatches(q) && LogRight(q) && Extends(q, q', ev)
    ensures LogRight(q')
  {
    ExtendsEnds(q, q', ev);
    assert forall i :: 0 <= i < |q.log| ==> q'.log[i] == q.log[i];
    forall i | 0 <= i < |q'.log| && (q'.log[i].Ended? || q'.log[i].Merged?) ensures 0 <= q'.log[i].id < q.arrivals {
      assert HasEnd(q.log, q.log[i].id);
    }
  }

  lemma ExtendsInOrder(cfg: Config, q: Queue, q': Queue, ev: Event)
    requires StageInv(cfg, q) && OrderInv(cfg, q) && Extends(q, q', ev)
    ensures OrderInv(cfg, q')
  {
    ExtendsStamps(q, q', ev);
    ExtendsOrdered(q, q', ev);
    ExtendsBarriers(q, q', ev);
    ExtendsPlaces(q, q', ev);
    ExtendsLog(q, q', ev);
    ExtendsKept(q, q', ev);
  }

  lemma SortExtends(q: Queue, ev: Event)
    requires ev.Add? && ActualWhere(ev) == Sort && ev.fs && q.arrivals !in q.list && q.arrivals !in q.sorted
    ensures Extends(q, AddRequest(q, ev), ev)
  {
  }

  lemma FrontExtends(q: Queue, ev: Event)
    requires ev.Add? && ActualWhere(ev) == Front && !ev.fs && !ev.hard && q.arrivals !in q.list
    ensures Extends(q, AddRequest(q, ev), ev)
  {
    assert AddRequest(q, ev).list == [q.arrivals] + q.list;
  }

  lemma BackExtends(q: Queue, ev: Event)
    requires ev.Add? && ActualWhere(ev) == Back && MayDrain(q, ev.moves) && (ev.hard ==> ev.fs)
    requires var d := DrainSorted(q, ev.moves); d.sorted == {} && d.arrivals == q.arrivals
    ensures Extends(DrainSorted(q, ev.moves), AddRequest(q, ev), ev)
  {
    hide DrainSorted, MayDrain;
    assert AddRequest(q, ev).list == DrainSorted(q, ev.moves).list + [q.arrivals];
  }

  lemma AddInOrder(cfg: Config, q: Queue, ev: Event)
    requires Draining(cfg) && StageInv(cfg, q) && OrderInv(cfg, q) && ev.Add? && Enabled(cfg, q, ev)
    ensures OrderInv(cfg, AddRequest(q, ev))
  {
    hide OrderInv, Extends, LogMatches, ProxiesMatch, SeqShape;
    if ActualWhere(ev) == Back {
      DrainKeeps(cfg, q, ev.moves);
      DrainInOrder(cfg, q, ev.moves);
      BackExtends(q, ev);
      ExtendsInOrder(cfg, DrainSorted(q, ev.moves), AddRequest(q, ev), ev);
    } else {
      if ActualWhere(ev) == Front { FrontExtends(q, ev); } else { SortExtends(q, ev); }
      ExtendsInOrder(cfg, q, AddRequest(q, ev), ev);
    }
  }

  // ---- handing requests to the driver ----

  /** The request at the head of the list may be issued now. */
  ghost predicate HeadMayGo(q: Queue) {
    && q.list != []
    && (Fs(q, q.list[0]) ==> !Rq(q, q.list[0]).hard && Epoch(q, q.list[0]) == q.retired)
    && (q.list[0] == BAR_RQ ==> InProgress(q) && DRAIN in q.ordseq)
  }

  /** Whatever was added before the barrier in progress has ended once the queue is drained. */
  lemma EarlierEnded(cfg: Config, q: Queue, id: Id)
    requires StageInv(cfg, q) && OrderInv(cfg, q) && InProgress(q) && DRAIN in q.ordseq
    requires 0 <= id < q.origBar && Rq(q, id).fs
    ensures HasEnd(q.log, id)
  {
    assert Epoch(q, id) <= q.retired < q.epoch;
    assert !Alive(q, id);
  }

  /** A barrier of a retired epoch has ended. */
  lemma RetiredEnded(cfg: Config, q: Queue, id: Id)
    requires StageInv(cfg, q) && OrderInv(cfg, q) && 0 <= id < q.arrivals
    requires Barrier(q, id) && Epoch(q, id) < q.retired
    ensures HasEnd(q.log, id)
  {
    assert !Alive(q, id);
  }

  lemma IssueInOrder(cfg: Config, q: Queue)
    requires StageInv(cfg, q) && OrderInv(cfg, q) && HeadMayGo(q) && IssueObs(q, q.list[0]) != []
    ensures InOrder(q.log, IssueObs(q, q.list[0])[0])
  {
    var o := IssueObs(q, q.list[0])[0];
    assert q.list[0] in q.list;
    forall j | 0 <= j < |q.log| && q.log[j].Queued? && q.log[j].id < o.id
      ensures o.BarrierIssued? && q.log[j].fs ==> HasEnd(q.log, q.log[j].id)
      ensures o.Issued? && q.log[j].barrier ==> HasEnd(q.log, q.log[j].id)
    {
      if o.BarrierIssued? && q.log[j].fs { EarlierEnded(cfg, q, q.log[j].id); }
      if o.Issued? && q.log[j].barrier { RetiredEnded(cfg, q, q.log[j].id); }
    }
  }

  lemma MarkStartedPlaces(q: Queue, q': Queue)
    requires PlacesRight(q) && HeadMayGo(q) && q.list[0] !in q.flight && q.list[0] !in q.sorted
    requires q' == q.(rqs := q.rqs[q.list[0] := Rq(q, q.list[0]).(started := true)], log := q'.log)
    ensures PlacesRight(q') && SameMarks(q, q')
  {
    assert forall x :: x != q.list[0] ==> Rq(q', x) == Rq(q, x);
    assert (set x | x in q'.flight && Rq(q', x).fs) == (set x | x in q.flight && Rq(q, x).fs);
  }

  lemma MarkStartedInOrder(cfg: Config, q: Queue)
    requires StageInv(cfg, q) && OrderInv(cfg, q) && HeadMayGo(q)
    ensures OrderInv(cfg, MarkStarted(q))
  {
    hide OrderKept, LogMatches, LogRight, ListOrdered, Stamps, BarriersListed, ProxiesMatch;
    var id := q.list[0];
    assert id in q.list;
    if !Rq(q, id).started {
      var q' := MarkStarted(q);
      MarkStartedPlaces(q, q');
      KeepStamps(q, q');
      KeepOrdered(q, q');
      KeepBarriers(q, q');
      var q1 := q'.(log := q.log);
      KeepLog(q, q1);
      if IssueObs(q, id) == [] {
        assert q'.log == q.log;
      } else {
        IssueInOrder(cfg, q);
        AppendOrder(q.log, IssueObs(q, id)[0]);
        ObserveRight(q1, IssueObs(q, id)[0]);
        assert q' == Observe(q1, IssueObs(q, id)[0]);
      }
    }
  }

  lemma DequeueFlight(q: Queue, i: nat)
    requires FlightRight(q) && ListRight(q) && i < |q.list| && q.list[i] !in q.flight && Rq(q, q.list[i]).started
    requires IsProxy(q.list[i]) || 0 <= q.list[i]
    ensures FlightRight(Dequeue(q, i))
  {
    var id, q' := q.list[i], Dequeue(q, i);
    assert id in q.list && forall x :: Rq(q', x) == Rq(q, x);
    var fs, fs' := set x | x in q.flight && Rq(q, x).fs, set x | x in q'.flight && Rq(q', x).fs;
    assert fs' == if Rq(q, id).fs then fs + {id} else fs;
  }

  lemma DequeuePlaces(q: Queue, i: nat)
    requires OnePlace(q) && PlacesRight(q) && i < |q.list| && Rq(q, q.list[i]).started
    ensures PlacesRight(Dequeue(q, i))
  {
    var id, q' := q.list[i], Dequeue(q, i);
    assert id in q.list && forall x :: Rq(q', x) == Rq(q, x);
    RemoveDistinct(q.list, i);
    DequeueFlight(q, i);
    hide Distinct, FlightRight;
  }

  lemma DequeueInOrder(cfg: Config, q: Queue, i: nat)
    requires StageInv(cfg, q) && OrderInv(cfg, q) && i < |q.list| && Rq(q, q.list[i]).started
    ensures OrderInv(cfg, Dequeue(q, i))
  {
    hide Stamps, ListOrdered, BarriersListed, OrderKept, LogRight, LogMatches, ProxiesMatch;
    var q' := Dequeue(q, i);
    assert q.list[i] in q.list;
    RemoveDistinct(q.list, i);
    DequeuePlaces(q, i);
    RemoveOrdered(q, i, q');
    KeepStamps(q, q');
    KeepBarriers(q, q');
    KeepLog(q, q');
  }

  // ---- starting a sequence ----

  /** Nothing on the list belongs before the barrier in progress. */
  ghost predicate AllLater(q: Queue) {
    InProgress(q) && forall x :: x in q.list && Fs(q, x) ==> q.retired < Epoch(q, x)
  }

  lemma ObserveStage(q: Queue, o: Obs)
    requires LogRight(q) && OrderKept(q.log) && (o.SeqStarted? || o.StageDone? || o.BarrierEnded?)
    ensures LogRight(Observe(q, o)) && OrderKept(Observe(q, o).log)
  {
    ObserveRight(q, o);
    AppendOrder(q.log, o);
  }

  lemma UnlinkedLater(q: Queue)
    requires ListOrdered(q) && q.list != []
    requires Barrier(q, q.list[0]) && Epoch(q, q.list[0]) == q.retired
    ensures AllLater(Unlinked(q)) && ListOrdered(Unlinked(q))
  {
    var q' := Unlinked(q);
    assert forall x :: Rq(q', x) == Rq(q, x);
    forall k | 0 <= k < |q'.list| ensures Fs(q, q'.list[k]) ==> q.retired < Epoch(q, q'.list[k]) {
      assert MayPrecede(q, q.list[0], q.list[k + 1]);
    }
    assert q'.list == q.list[..0] + q.list[0 + 1..];
    RemoveOrdered(q, 0, q');
  }

  lemma UnlinkedBarriers(q: Queue)
    requires BarriersListed(q) && !InProgress(q) && q.list != [] && Epoch(q, q.list[0]) == q.retired < q.epoch
    ensures BarriersListed(Unlinked(q))
  {
    var q' := Unlinked(q);
    forall e | FirstOpen(q') <= e < q'.epoch ensures HasBarrier(q', e) {
      assert HasBarrier(q, e);
      var id :| id in q.list && Barrier(q, id) && Epoch(q, id) == e;
      assert q.list == [q.list[0]] + q.list[1..];
      assert id in q'.list && Barrier(q', id) && Epoch(q', id) == e;
    }
  }

  lemma UnlinkedPlaces(q: Queue)
    requires PlacesRight(q) && q.list != [] && !InProgress(q)
    requires Barrier(q, q.list[0]) && Epoch(q, q.list[0]) == q.retired && AllLater(Unlinked(q))
    ensures PlacesRight(Unlinked(q))
  {
    var q' := Unlinked(q);
    assert q.list[0] in q.list && forall x :: x in q'.list ==> x in q.list;
    assert forall x :: Rq(q', x) == Rq(q, x);
    assert (set x | x in q'.flight && Rq(q', x).fs) == (set x | x in q.flight && Rq(q, x).fs);
  }

  lemma UnlinkedInOrder(cfg: Config, q: Queue)
    requires StageInv(cfg, q) && OrderInv(cfg, q) && !InProgress(q) && q.list != [] && IsBarrier(Rq(q, q.list[0]))
    ensures OrderInv(cfg, Unlinked(q)) && AllLater(Unlinked(q))
  {
    hide OrderKept, LogMatches, LogRight, ListOrdered;
    var id, q' := q.list[0], Unlinked(q);
    assert id in q.list;
    HeadIsOldest(q);
    UnlinkedLater(q);
    UnlinkedBarriers(q);
    UnlinkedPlaces(q);
    KeepStamps(q, q');
    assert q.list == [id] + q.list[1..];
    KeepLog(q, q'.(log := q.log));
    ObserveStage(q'.(log := q.log), SeqStarted(id));
  }

  lemma PushOrdered(q: Queue, id: Id, rq: Request)
    requires ListOrdered(q) && AllLater(q) && id < 0
    ensures ListOrdered(Push(q, id, rq))
  {
    var q' := Push(q, id, rq);
    forall i, j | 0 <= i < j < |q'.list| ensures MayPrecede(q', q'.list[i], q'.list[j]) {
      if i > 0 {
        assert MayPrecede(q, q.list[i - 1], q.list[j - 1]);
      } else {
        assert q'.list[j] == q.list[j - 1] && q.list[j - 1] in q.list;
      }
    }
  }

  lemma PushPlaces(q: Queue, id: Id, rq: Request)
    requires PlacesRight(q) && InProgress(q) && id < 0 && rq.hard && id !in q.flight && id !in q.sorted &&
             0 <= q.origBar
    ensures PlacesRight(Push(q, id, rq))
  {
    var q' := Push(q, id, rq);
    assert forall x :: x != id ==> Rq(q', x) == Rq(q, x);
    assert forall x :: x in q'.list <==> x in q.list || x == id;
    assert (set x | x in q'.flight && Rq(q', x).fs) == (set x | x in q.flight && Rq(q, x).fs);
  }

  lemma PushInOrder(cfg: Config, q: Queue, id: Id, rq: Request)
    requires OrderInv(cfg, q) && AllLater(q) && id < 0 && rq.hard && id !in q.flight && id !in q.sorted &&
             0 <= q.origBar
    ensures var q' := Push(q, id, rq); OrderInv(cfg, q') && AllLater(q')
  {
    var q' := Push(q, id, rq);
    assert forall x :: x in q'.list <==> x in q.list || x == id;
    PushOrdered(q, id, rq);
    PushPlaces(q, id, rq);
    KeepStamps(q, q');
    KeepBarriers(q, q');
    KeepLog(q, q');
  }

  lemma MarkedPlaces(q: Queue, q': Queue)
    requires PlacesRight(q) && AllLater(q) && InProgress(q')
    requires q' == q.(ordseq := q'.ordseq, orderr := q'.orderr, bug := q'.bug, log := q'.log)
    requires DRAIN in q'.ordseq ==> q.inFlight == 0 || DRAIN in q.ordseq
    ensures PlacesRight(q')
  {
    var fs := set x | x in q.flight && Rq(q, x).fs;
    assert forall x :: Rq(q', x) == Rq(q, x);
    assert (set x | x in q'.flight && Rq(q', x).fs) == fs;
    assert forall x :: x in q.flight && Fs(q, x) ==> x in fs;
  }

  lemma MarkedInOrder(cfg: Config, q: Queue, stage: int)
    requires OrderInv(cfg, q) && AllLater(q) && (stage == DRAIN ==> q.inFlight == 0)
    ensures OrderInv(cfg, MarkSkipped(q, stage)) && AllLater(MarkSkipped(q, stage))
  {
    var q' := MarkSkipped(q, stage);
    MarkedPlaces(q, q');
    KeepOrdered(q, q');
    KeepStamps(q, q');
    KeepBarriers(q, q');
    KeepLog(q, q'.(log := q.log));
    ObserveStage(q'.(log := q.log), StageDone(stage, 0));
  }

  lemma StackInOrder(cfg: Config, q: Queue)
    requires cfg.mode.Ordered? && OrderInv(cfg, q) && AllLater(q) && 0 <= q.origBar
    requires forall id :: IsProxy(id) ==> id !in q.flight && id !in q.sorted
    ensures var q' := StackProxies(cfg.mode, q); OrderInv(cfg, q') && AllLater(q')
  {
    var mode := cfg.mode;
    if mode.postflush { PushInOrder(cfg, q, POST_FLUSH_RQ, FLUSH_REQUEST); } else { MarkedInOrder(cfg, q, POSTFLUSH); }
    var post := if mode.postflush then Push(q, POST_FLUSH_RQ, FLUSH_REQUEST) else MarkSkipped(q, POSTFLUSH);
    PushInOrder(cfg, post, BAR_RQ, PROXY_REQUEST);
    var bar := Push(post, BAR_RQ, PROXY_REQUEST);
    if mode.preflush { PushInOrder(cfg, bar, PRE_FLUSH_RQ, FLUSH_REQUEST); } else { MarkedInOrder(cfg, bar, PREFLUSH); }
  }

  lemma StartInOrder(cfg: Config, q: Queue)
    requires Draining(cfg) && StageInv(cfg, q) && OrderInv(cfg, q)
    requires !InProgress(q) && q.list != [] && IsBarrier(Rq(q, q.list[0]))
    ensures var (q', ok) := StartOrdered(cfg.mode, q); OrderInv(cfg, q') && (ok ==> HeadMayGo(q'))
  {
    UnlinkedKeeps(cfg, q);
    UnlinkedInOrder(cfg, q);
    var u := Unlinked(q);
    StackKeeps(cfg.mode, u);
    StackInOrder(cfg, u);
    var s := StackProxies(cfg.mode, u);
    if s.inFlight == 0 { MarkedInOrder(cfg, s, DRAIN); }
  }

  // ---- what the driver gets next ----

  lemma CandidateInOrder(cfg: Config, q: Queue)
    requires Draining(cfg) && StageInv(cfg, q) && OrderInv(cfg, q)
    ensures var (q', ok) := NextCandidate(cfg.mode, q); OrderInv(cfg, q') && (ok ==> HeadMayGo(q'))
  {
    if q.list != [] {
      var id := q.list[0];
      assert id in q.list;
      if Fs(q, id) { HeadIsOldest(q); }
      if !InProgress(q) {
        if IsBarrier(Rq(q, id)) { StartInOrder(cfg, q); }
      } else {
        WaitInOrder(cfg, q);
      }
    }
  }

  /** While a sequence is in progress only the requests of its own epoch get through. */
  lemma WaitInOrder(cfg: Config, q: Queue)
    requires Draining(cfg) && StageInv(cfg, q) && OrderInv(cfg, q) && InProgress(q) && q.list != []
    requires Fs(q, q.list[0]) ==> Epoch(q, q.list[0]) <= FirstOpen(q)
    ensures var (q', ok) := DoOrdered(cfg.mode, q); q' == q && (ok ==> HeadMayGo(q))
  {
    hide LogMatches, LogRight, OrderKept, ListOrdered;
    var id := q.list[0];
    assert id in q.list;
    if Fs(q, id) { SeqByEpoch(q, id); }
  }

  // ---- requests coming back from the driver ----

  lemma ReturnedCount(q: Queue, id: Id)
    requires FlightRight(q) && id in q.flight
    ensures FlightRight(Returned(q, id))
  {
    var q' := Returned(q, id);
    assert forall x :: Rq(q', x) == Rq(q, x);
    var fs, fs' := set x | x in q.flight && Rq(q, x).fs, set x | x in q'.flight && Rq(q', x).fs;
    assert fs' == fs - {id};
  }

  /** A released request, ready to go back on the list. */
  function Unstarted(q: Queue, id: Id): Queue {
    Returned(q, id).(rqs := q.rqs[id := Rq(q, id).(started := false, soft := true)])
  }

  lemma UnstartedFlight(q: Queue, id: Id)
    requires FlightRight(q) && id in q.flight
    ensures FlightRight(Unstarted(q, id))
  {
    ReturnedCount(q, id);
    var r, u := Returned(q, id), Unstarted(q, id);
    assert forall x :: x != id ==> Rq(u, x) == Rq(r, x);
    assert (set x | x in u.flight && Rq(u, x).fs) == (set x | x in r.flight && Rq(r, x).fs);
  }

  /** A request that belongs before the barrier, or comes back while none is in progress,
      goes to the head of the list. */
  lemma RequeueFsPos(cfg: Config, q: Queue, id: Id)
    requires StageInv(cfg, q) && OrderInv(cfg, q) && id in q.flight && Fs(q, id)
    ensures Requeue(q, id) == InsertAt(Unstarted(q, id), 0, id)
  {
    hide LogMatches, LogRight, OrderKept, ListOrdered, BarriersListed;
    var u := Unstarted(q, id);
    if InProgress(q) {
      assert u.origBar != id && Rq(u, u.origBar) == Rq(q, q.origBar);
      assert ReqSeq(u, id) == DRAIN;
    }
  }

  lemma RequeueFsOrdered(cfg: Config, q: Queue, id: Id)
    requires StageInv(cfg, q) && OrderInv(cfg, q) && id in q.flight && Fs(q, id)
    ensures ListOrdered(Requeue(q, id))
  {
    hide LogMatches, LogRight, OrderKept;
    var u := Unstarted(q, id);
    RequeueFsPos(cfg, q, id);
    KeepOrdered(q, u);
    forall k | 0 <= k < |u.list| ensures MayPrecede(u, id, u.list[k]) {
      assert u.list[k] in q.list;
    }
    InsertOrdered(u, 0, id);
  }

  /** Once the queue is drained, a file system request has one ahead of it, or is itself
      one, that waits for the end of the sequence. */
  lemma DoneAhead(q: Queue, k: nat) returns (j: nat)
    requires Stamps(q) && ListOrdered(q) && BarriersListed(q) && ListRight(q) && OrigRight(q)
    requires InProgress(q) && DRAIN in q.ordseq && 0 <= q.origBar < q.arrivals && k < |q.list|
    requires forall x :: x in q.list ==> x < q.arrivals
    ensures j <= k && (Fs(q, q.list[k]) ==> ReqSeq(q, q.list[j]) == DONE)
  {
    var id, e := q.list[k], FirstOpen(q);
    assert id in q.list;
    j := k;
    if Fs(q, id) {
      if Epoch(q, id) > e {
        var b := OpenBarrier(q, e);
        assert q.list[b] in q.list;
        Before(q, k, b);
        j := b;
      }
      SeqByEpoch(q, q.list[j]);
    }
  }

  /** Where the barrier of an open epoch is on the list. */
  lemma OpenBarrier(q: Queue, e: nat) returns (j: nat)
    requires BarriersListed(q) && FirstOpen(q) <= e < q.epoch
    ensures j < |q.list| && Barrier(q, q.list[j]) && Epoch(q, q.list[j]) == e
  {
    assert HasBarrier(q, e);
    var b :| b in q.list && Barrier(q, b) && Epoch(q, b) == e;
    j :| 0 <= j < |q.list| && q.list[j] == b;
  }

  /** The stage of a request of the epoch in progress, and of the one after it. */
  lemma SeqByEpoch(q: Queue, id: Id)
    requires Stamps(q) && OrigRight(q) && InProgress(q) && 0 <= q.origBar < q.arrivals
    requires Fs(q, id) && id < q.arrivals
    ensures Epoch(q, id) == q.retired ==> ReqSeq(q, id) == DRAIN
    ensures Epoch(q, id) == q.retired + 1 ==> ReqSeq(q, id) == DONE
  {
  }

  lemma UnstartedSeq(q: Queue, id: Id, x: Id)
    requires id < 0 && 0 <= q.origBar
    ensures ReqSeq(Unstarted(q, id), x) == ReqSeq(q, x)
  {
  }

  lemma RequeueProxyOrdered(cfg: Config, q: Queue, id: Id)
    requires StageInv(cfg, q) && OrderInv(cfg, q) && id in q.flight && id < 0
    ensures ListOrdered(Requeue(q, id))
  {
    hide LogMatches, LogRight, OrderKept;
    var u := Unstarted(q, id);
    assert InProgress(q) && DRAIN in q.ordseq;
    var pos := RequeuePos(u, id, 0);
    KeepOrdered(q, u);
    forall k | 0 <= k < pos ensures MayPrecede(u, u.list[k], id) {
      var j := DoneAhead(q, k);
      UnstartedSeq(q, id, q.list[j]);
      UnstartedSeq(q, id, id);
    }
    forall k | pos <= k < |u.list| ensures MayPrecede(u, id, u.list[k]) {
      assert u.list[k] in q.list;
    }
    InsertOrdered(u, pos, id);
  }

  lemma RequeueOtherOrdered(cfg: Config, q: Queue, id: Id)
    requires StageInv(cfg, q) && OrderInv(cfg, q) && id in q.flight && 0 <= id && !Rq(q, id).fs
    ensures ListOrdered(Requeue(q, id))
  {
    var u := Unstarted(q, id);
    KeepOrdered(q, u);
    InsertOrdered(u, if q.ordseq == {} then 0 else RequeuePos(u, id, 0), id);
  }

  lemma RequeuePlaces(q: Queue, id: Id, q': Queue)
    requires OnePlace(q) && PlacesRight(q) && id in q.flight && (IsProxy(id) ==> Rq(q, id).hard)
    requires q' == Unstarted(q, id).(list := q'.list) && forall x :: x in q'.list <==> x in q.list || x == id
    ensures PlacesRight(q')
  {
    UnstartedFlight(q, id);
    var u := Unstarted(q, id);
    assert forall x :: x != id ==> Rq(q', x) == Rq(q, x);
    assert forall x :: Rq(q', x) == Rq(u, x);
    assert (set x | x in q'.flight && Rq(q', x).fs) == (set x | x in u.flight && Rq(u, x).fs);
  }

  lemma RequeueInOrder(cfg: Config, q: Queue, id: Id)
    requires StageInv(cfg, q) && OrderInv(cfg, q) && id in q.flight
    ensures OrderInv(cfg, Requeue(q, id))
  {
    hide Stamps, ListOrdered, BarriersListed, OrderKept, LogRight, LogMatches, ReqSeq, CurSeq;
    var q' := Requeue(q, id);
    InsertHas(q.list, if q.ordseq == {} then 0 else RequeuePos(Unstarted(q, id), id, 0), id);
    if id < 0 { RequeueProxyOrdered(cfg, q, id); }
    else if Rq(q, id).fs { RequeueFsOrdered(cfg, q, id); }
    else { RequeueOtherOrdered(cfg, q, id); }
    RequeuePlaces(q, id, q');
    KeepStamps(q, q');
    KeepBarriers(q, q');
    KeepLog(q, q');
  }

  // ---- ending requests and stages ----

  /** The request at the head of the list waits for a later stage, and nothing that counts
      is in flight: so nothing that belongs before the barrier is left on the list. */
  lemma DrainedIsLater(cfg: Config, q: Queue)
    requires StageInv(cfg, q) && OrderInv(cfg, q) && InProgress(q) && q.list != [] && ReqSeq(q, q.list[0]) > DRAIN
    ensures AllLater(q)
  {
    hide LogMatches, LogRight, OrderKept;
    forall x | x in q.list && Fs(q, x) ensures q.retired < Epoch(q, x) {
      var k :| 0 <= k < |q.list| && q.list[k] == x;
      assert q.list[0] in q.list;
      assert k == 0 || MayPrecede(q, q.list[0], q.list[k]);
    }
  }

  lemma CheckDrainedInOrder(cfg: Config, q: Queue)
    requires StageInv(cfg, q) && OrderInv(cfg, q)
    ensures OrderInv(cfg, CheckDrained(q))
  {
    if InProgress(q) && q.inFlight == 0 && CurSeq(q.ordseq) == DRAIN {
      assert BAR_RQ in q.list;
      if ReqSeq(q, q.list[0]) > DRAIN {
        DrainedIsLater(cfg, q);
        MarkedInOrder(cfg, q, DRAIN);
        DrainMark(q);
      }
    }
  }

  lemma DrainMark(q: Queue)
    requires DRAIN !in q.ordseq && BAR !in q.ordseq
    ensures CompleteSeq(q, DRAIN, 0) == MarkSkipped(q, DRAIN)
  {
  }

  lemma ReturnedPlaces(q: Queue, id: Id)
    requires PlacesRight(q) && id in q.flight
    ensures PlacesRight(Returned(q, id))
  {
    ReturnedCount(q, id);
    var q' := Returned(q, id);
    assert forall x :: Rq(q', x) == Rq(q, x);
  }

  lemma EndedLog(q: Queue, q': Queue, id: Id, o: Obs)
    requires LogRight(q) && OrderKept(q.log) && SameMarks(q, q') && q'.arrivals == q.arrivals
    requires (o.Ended? || o.Merged?) && q'.log == q.log + [o] && o.id == id && !Barrier(q, id)
    requires o.Ended? || (0 <= id < q.arrivals && 0 <= o.into < q.arrivals
                          && !Barrier(q, o.into) && Epoch(q, id) == Epoch(q, o.into))
    requires forall x :: Fs(q, x) && Alive(q, x) && x != id ==> Alive(q', x)
    ensures LogRight(q') && OrderKept(q'.log)
  {
    AppendOrder(q.log, o);
    forall x | 0 <= x < q'.arrivals && Rq(q', x).fs ensures Alive(q', x) || HasEnd(q'.log, x) {
      AppendObs(q.log, o);
      assert Alive(q, x) || HasEnd(q.log, x);
    }
    forall i | 0 <= i < |q'.log| ensures q'.log[i] == if i < |q.log| then q.log[i] else o {
    }
  }

  lemma CompleteAddedInOrder(cfg: Config, q: Queue, id: Id, uptodate: int)
    requires StageInv(cfg, q) && OrderInv(cfg, q) && id in q.flight && 0 <= id
    ensures OrderInv(cfg, Complete(q, id, uptodate))
  {
    hide Stamps, ListOrdered, BarriersListed, PlacesRight, LogRight, OrderKept;
    var o := Ended(id, ErrorOf(uptodate));
    var q' := Observe(Returned(q, id), o);
    EndedInOrder(cfg, q, id, q', o);
    ReturnedKeeps(cfg, q, id);
    ObserveEnd(Returned(q, id), o);
    CheckDrainedInOrder(cfg, q');
  }

  lemma EndedInOrder(cfg: Config, q: Queue, id: Id, q': Queue, o: Obs)
    requires StageInv(cfg, q) && OrderInv(cfg, q) && id in q.flight && 0 <= id && o.Ended? && o.id == id
    requires q' == Observe(Returned(q, id), o)
    ensures OrderInv(cfg, q')
  {
    hide Stamps, ListOrdered, BarriersListed, OrderKept, LogMatches, ProxiesMatch;
    ReturnedPlaces(q, id);
    assert PlacesRight(q') by { KeepPlaces(Returned(q, id), q'); }
    KeepOrdered(q, q');
    KeepStamps(q, q');
    KeepBarriers(q, q');
    EndedLog(q, q', id, o);
  }

  lemma KeepPlaces(q: Queue, q': Queue)
    requires PlacesRight(q) && q' == q.(log := q'.log, sorted := q'.sorted) && q'.sorted <= q.sorted
    ensures PlacesRight(q')
  {
    assert forall x :: Rq(q', x) == Rq(q, x);
    assert (set x | x in q'.flight && Rq(q', x).fs) == (set x | x in q.flight && Rq(q, x).fs);
  }

  lemma MergedInOrder(cfg: Config, q: Queue, q': Queue, kept: Id, gone: Id)
    requires StageInv(cfg, q) && OrderInv(cfg, q) && kept in q.sorted && gone in q.sorted
    requires q' == Observe(q.(sorted := q.sorted - {gone}), Merged(gone, kept))
    ensures OrderInv(cfg, q')
  {
    hide Stamps, ListOrdered, OrderKept, LogRight, LogMatches, ProxiesMatch;
    KeepPlaces(q, q');
    KeepOrdered(q, q');
    KeepStamps(q, q');
    KeepBarriers(q, q');
    EndedLog(q, q', gone, Merged(gone, kept));
  }

  lemma MergeInOrder(cfg: Config, q: Queue, kept: Id, gone: Id)
    requires StageInv(cfg, q) && OrderInv(cfg, q) && kept in q.sorted && gone in q.sorted
    ensures OrderInv(cfg, Merge(q, kept, gone))
  {
    var q' := Observe(q.(sorted := q.sorted - {gone}), Merged(gone, kept));
    MergedInOrder(cfg, q, q', kept, gone);
    MergedKeeps(cfg, q, kept, gone);
    CheckDrainedInOrder(cfg, q');
  }

  /** One of the embedded requests ended; more stages are open. */
  lemma StageDoneInOrder(cfg: Config, q: Queue, stage: int, error: int)
    requires OrderInv(cfg, q) && AllLater(q) && stage != DRAIN && CurSeq(q.ordseq + {stage}) != DONE
    ensures OrderInv(cfg, CompleteSeq(q, stage, error))
  {
    var q' := CompleteSeq(q, stage, error);
    MarkedPlaces(q, q');
    KeepOrdered(q, q');
    KeepStamps(q, q');
    KeepBarriers(q, q');
    KeepLog(q, q'.(log := q.log));
    ObserveStage(q'.(log := q.log), StageDone(stage, error));
  }

  lemma RetirePlaces(q: Queue, q': Queue)
    requires PlacesRight(q) && AllLater(q) && DRAIN in q.ordseq
    requires q' == q.(orderr := q'.orderr, bug := q'.bug, ordseq := {}, retired := q.retired + 1, log := q'.log)
    ensures PlacesRight(q')
  {
    assert forall x :: Rq(q', x) == Rq(q, x);
    assert (set x | x in q'.flight && Rq(q', x).fs) == (set x | x in q.flight && Rq(q, x).fs);
  }

  lemma RetireOrdered(q: Queue, q': Queue)
    requires ListOrdered(q) && SameMarks(q, q') && q'.list == q.list && forall x :: x in q.list ==> 0 <= x
    ensures ListOrdered(q')
  {
    forall i, j | 0 <= i < j < |q'.list| ensures MayPrecede(q', q'.list[i], q'.list[j]) {
      assert q.list[i] in q.list && q.list[j] in q.list;
      assert MayPrecede(q, q.list[i], q.list[j]);
    }
  }

  lemma RetireLog(q: Queue, q': Queue, o: Obs, p: Obs)
    requires LogRight(q) && OrderKept(q.log) && SameMarks(q, q') && q'.arrivals == q.arrivals
    requires o.StageDone? && p.BarrierEnded? && p.id == q.origBar && q'.log == q.log + [o] + [p]
    requires forall x :: Alive(q, x) && x != q.origBar ==> Alive(q', x)
    ensures LogRight(q') && OrderKept(q'.log)
  {
    hide HasEnd, InOrder;
    ObserveStage(q, o);
    var q1 := Observe(q, o);
    ObserveStage(q1, p);
    var q2 := Observe(q1, p);
    AppendObs(q1.log, p);
    assert q2.log == q'.log;
  }

  /** The last stage ended. */
  lemma RetireInOrder(cfg: Config, q: Queue, stage: int, error: int)
    requires OrderInv(cfg, q) && AllLater(q) && DRAIN in q.ordseq && CurSeq(q.ordseq + {stage}) == DONE
    requires forall x :: x in q.list ==> 0 <= x
    ensures OrderInv(cfg, CompleteSeq(q, stage, error))
  {
    var q' := CompleteSeq(q, stage, error);
    RetirePlaces(q, q');
    RetireOrdered(q, q');
    KeepStamps(q, q');
    KeepBarriers(q, q');
    RetireLog(q, q', StageDone(stage, error), BarrierEnded(q.origBar, q'.orderr));
  }

  lemma ReturnedProxyInOrder(cfg: Config, q: Queue, id: Id)
    requires StageInv(cfg, q) && OrderInv(cfg, q) && id in q.flight && id < 0
    ensures OrderInv(cfg, Returned(q, id)) && AllLater(Returned(q, id)) && DRAIN in q.ordseq
  {
    var left := Returned(q, id);
    ReturnedPlaces(q, id);
    KeepOrdered(q, left);
    KeepStamps(q, left);
    KeepBarriers(q, left);
    KeepLog(q, left);
  }

  lemma NoProxyLeft(cfg: Config, q: Queue, id: Id)
    requires StageInv(cfg, q) && id in q.flight && id < 0 && CurSeq(q.ordseq + {StageOf(id)}) == DONE
    ensures forall x :: x in q.list ==> 0 <= x
  {
    AllMarked(q.ordseq + {StageOf(id)});
  }

  lemma CompleteProxyInOrder(cfg: Config, q: Queue, id: Id, uptodate: int)
    requires StageInv(cfg, q) && OrderInv(cfg, q) && id in q.flight && id < 0
    ensures OrderInv(cfg, Complete(q, id, uptodate))
  {
    var left, stage := Returned(q, id), StageOf(id);
    ReturnedProxyInOrder(cfg, q, id);
    assert CheckDrained(left) == left;
    if CurSeq(q.ordseq + {stage}) == DONE {
      NoProxyLeft(cfg, q, id);
      RetireInOrder(cfg, left, stage, ErrorOf(uptodate));
    } else {
      StageDoneInOrder(cfg, left, stage, ErrorOf(uptodate));
    }
  }

  // ---- every run ----

  lemma StepInOrder(cfg: Config, q: Queue, ev: Event)
    requires Draining(cfg) && StageInv(cfg, q) && OrderInv(cfg, q) && Enabled(cfg, q, ev)
    ensures OrderInv(cfg, Apply(cfg, q, ev))
  {
    match ev
    case Add(_, _, _, _, _, _) => AddInOrder(cfg, q, ev);
    case Dispatched(id, pos) => DispatchInOrder(cfg, q, id, pos);
    case MergeAway(kept, gone) => MergeInOrder(cfg, q, kept, gone);
    case NextRequest =>
      CandidateKeeps(cfg, q);
      CandidateInOrder(cfg, q);
      var (q', ok) := NextCandidate(cfg.mode, q);
      if ok { MarkStartedInOrder(cfg, q'); }
    case Dequeued(i) => DequeueInOrder(cfg, q, i);
    case Requeued(id) => RequeueInOrder(cfg, q, id);
    case Completed(id, uptodate) =>
      if 0 <= id { CompleteAddedInOrder(cfg, q, id, uptodate); } else { CompleteProxyInOrder(cfg, q, id, uptodate); }
  }

  lemma {:induction false} RunInOrder(cfg: Config, q: Queue, run: seq<Event>)
    requires Draining(cfg) && StageInv(cfg, q) && OrderInv(cfg, q) && ValidRun(cfg, q, run)
    ensures OrderInv(cfg, After(cfg, q, run))
    decreases |run|
  {
    if run != [] {
      StepKeeps(cfg, q, run[0]);
      StepInOrder(cfg, q, run[0]);
      RunInOrder(cfg, Apply(cfg, q, run[0]), run[1..]);
    }
  }

  // ---- the theorem ----

  /** Merging two requests never moves one across a barrier. */
  ghost predicate MergesStayPut(log: seq<Obs>) {
    forall i, j :: 0 <= i < |log| && 0 <= j < |log| && log[i].Merged? && log[j].Queued? && log[j].barrier ==>
      (log[i].id < log[j].id <==> log[i].into < log[j].id)
  }

  /** A barrier is ended by its own sequence and by nothing else. */
  ghost predicate OnlySequencesEndBarriers(log: seq<Obs>) {
    forall i, j :: 0 <= i < |log| && 0 <= j < |log| && IsEnd(log[i]) && log[j] == Queued(log[i].id, true, true) ==>
      log[i].BarrierEnded?
  }

  lemma EmptyInOrder(cfg: Config)
    ensures StageInv(cfg, EMPTY_QUEUE) && OrderInv(cfg, EMPTY_QUEUE)
  {
    assert (set id | id in EMPTY_QUEUE.flight && Rq(EMPTY_QUEUE, id).fs) == {};
  }

  lemma MergesWithin(q: Queue)
    requires Stamps(q) && LogRight(q)
    ensures MergesStayPut(q.log)
  {
    forall i, j | 0 <= i < |q.log| && 0 <= j < |q.log| && q.log[i].Merged? && q.log[j].Queued? && q.log[j].barrier
      ensures q.log[i].id < q.log[j].id <==> q.log[i].into < q.log[j].id
    {
      var a, k, b := q.log[i].id, q.log[i].into, q.log[j].id;
      assert a != b && k != b;
    }
  }

  lemma SequencesEnd(q: Queue)
    requires LogRight(q)
    ensures OnlySequencesEndBarriers(q.log)
  {
  }

  /** Ordering by draining holds in every run in which only file system requests carry the
      hard barrier flag, and the WARN_ON on a late stage never fires. */
  lemma BarrierOrder(cfg: Config, run: seq<Event>)
    requires Draining(cfg) && ValidRun(cfg, EMPTY_QUEUE, run)
    ensures var q := After(cfg, EMPTY_QUEUE, run);
            OrderKept(q.log) && MergesStayPut(q.log) && OnlySequencesEndBarriers(q.log) && !q.warned
  {
    hide StageInv, Stamps, LogRight, OrderKept, MergesStayPut, OnlySequencesEndBarriers;
    EmptyInOrder(cfg);
    RunInOrder(cfg, EMPTY_QUEUE, run);
    MergesWithin(After(cfg, EMPTY_QUEUE, run));
    SequencesEnd(After(cfg, EMPTY_QUEUE, run));
  }

  // ---- and only then ----

  ghost predicate OrderedAlways(cfg: Config) {
    forall run | ValidRun(cfg, EMPTY_QUEUE, run) :: OrderKept(After(cfg, EMPTY_QUEUE, run).log)
  }

  ghost predicate Reachable(cfg: Config, q: Queue) {
    exists run :: ValidRun(cfg, EMPTY_QUEUE, run) && After(cfg, EMPTY_QUEUE, run) == q
  }

  lemma {:induction false} Extend(cfg: Config, q: Queue, run: seq<Event>, ev: Event)
    requires ValidRun(cfg, q, run) && Enabled(cfg, After(cfg, q, run), ev)
    ensures ValidRun(cfg, q, run + [ev]) && After(cfg, q, run + [ev]) == Apply(cfg, After(cfg, q, run), ev)
    decreases |run|
  {
    if run == [] {
      assert run + [ev] == [ev] && [ev][1..] == [];
    } else {
      Extend(cfg, Apply(cfg, q, run[0]), run[1..], ev);
      assert (run + [ev])[1..] == run[1..] + [ev];
    }
  }

  lemma ReachNext(cfg: Config, q: Queue, ev: Event)
    requires Reachable(cfg, q) && Enabled(cfg, q, ev)
    ensures Reachable(cfg, Apply(cfg, q, ev))
  {
    var run :| ValidRun(cfg, EMPTY_QUEUE, run) && After(cfg, EMPTY_QUEUE, run) == q;
    Extend(cfg, EMPTY_QUEUE, run, ev);
  }
}
