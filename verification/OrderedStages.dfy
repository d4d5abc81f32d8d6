/**
 Each barrier's sequence, in every ordered mode and with stages ending in any order:
 every stage is marked once, no BUG_ON is reachable, and the barrier itself is ended
 exactly once, when the last stage is done, with the first error recorded.
 */
module OrderedStages {
  import opened Lists
  import opened OrderedQueue

  predicate InProgress(q: Queue) {
    q.ordseq != {}
  }

  predicate IsProxy(id: Id) { -3 <= id <= -1 }

  /** The barrier whose sequence is in progress. */
  predicate IsOrig(q: Queue, id: Id) {
    InProgress(q) && id == q.origBar
  }

  predicate Alive(q: Queue, id: Id) {
    id in q.list || id in q.sorted || id in q.flight || IsOrig(q, id)
  }

  /** A request is in one place at a time; of the embedded ones only the barrier's proxy
      is a file system request. */
  ghost predicate OnePlace(q: Queue) {
    && Distinct(q.list)
    && q.sorted !! q.flight
    && (forall id :: id in q.list ==> -3 <= id < q.arrivals && id !in q.sorted && id !in q.flight && !IsOrig(q, id))
    && (forall id :: id in q.flight ==> -3 <= id < q.arrivals && !IsOrig(q, id))
    && (forall id :: id in q.sorted ==> 0 <= id < q.arrivals && !IsOrig(q, id))
    && (forall id :: IsProxy(id) && (id in q.list || id in q.flight) ==> Rq(q, id).fs == (id == BAR_RQ))
  }

  /** The embedded requests are queued or issued exactly while their stage is open,
      and not handed out before the drain is over. */
  ghost predicate ProxiesMatch(q: Queue) {
    && (forall id | IsProxy(id) :: id in q.list || id in q.flight <==> InProgress(q) && StageOf(id) !in q.ordseq)
    && (InProgress(q) && DRAIN !in q.ordseq ==>
          forall id | IsProxy(id) :: id !in q.flight && (id in q.list ==> !Rq(q, id).started))
  }

  ghost predicate SeqShape(cfg: Config, q: Queue) {
    && q.ordseq <= {STARTED, DRAIN, PREFLUSH, BAR, POSTFLUSH}
    && (InProgress(q) ==>
          && cfg.mode.Ordered? && STARTED in q.ordseq && CurSeq(q.ordseq) != DONE
          && 0 <= q.origBar < q.arrivals
          && (cfg.mode.tag ==> DRAIN in q.ordseq)
          && (DRAIN !in q.ordseq ==> BAR !in q.ordseq))
  }

  // ---- the log ----

  /** Stages marked since the last sequence started. */
  function SeqStages(log: seq<Obs>): seq<int> {
    if log == [] then []
    else
      var rest := log[..|log| - 1];
      match log[|log| - 1]
      case SeqStarted(_) => []
      case StageDone(stage, _) => SeqStages(rest) + [stage]
      case _ => SeqStages(rest)
  }

  /** The first error recorded since the last sequence started; 0 for none. */
  function FirstError(log: seq<Obs>): int {
    if log == [] then 0
    else
      var rest := log[..|log| - 1];
      match log[|log| - 1]
      case SeqStarted(_) => 0
      case StageDone(_, error) => if FirstError(rest) != 0 then FirstError(rest) else error
      case _ => FirstError(rest)
  }

  /** The barrier the last sequence was started for. */
  function SeqOwner(log: seq<Obs>): int {
    if log == [] then -1
    else
      match log[|log| - 1]
      case SeqStarted(id) => id
      case _ => SeqOwner(log[..|log| - 1])
  }

  predicate IsEnd(o: Obs) {
    o.Ended? || o.BarrierEnded? || o.Merged?
  }

  ghost predicate HasEnd(log: seq<Obs>, id: Id) {
    exists i :: 0 <= i < |log| && IsEnd(log[i]) && log[i].id == id
  }

  /** No request ends twice. */
  ghost predicate EndsOnce(log: seq<Obs>) {
    forall i, j :: 0 <= i < j < |log| && IsEnd(log[i]) && IsEnd(log[j]) ==> log[i].id != log[j].id
  }

  const ALL_STAGES: multiset<int> := multiset{DRAIN, PREFLUSH, BAR, POSTFLUSH}

  /** A sequence was started and its barrier has not been ended. */
  predicate SeqOpen(log: seq<Obs>) {
    if log == [] then false
    else
      match log[|log| - 1]
      case SeqStarted(_) => true
      case BarrierEnded(_, _) => false
      case _ => SeqOpen(log[..|log| - 1])
  }

  /** The last thing seen is the mark of the last missing stage. */
  predicate JustCompleted(log: seq<Obs>) {
    log != [] && log[|log| - 1].StageDone? && multiset(SeqStages(log)) == ALL_STAGES
  }

  /** What `o` may be after `before`: a barrier is ended exactly when the mark before it
      completed the four stages, and it is the one the sequence was started for, with the
      first error any stage recorded; a sequence starts only when none is open; a stage is
      one of the four, of an open sequence, and was not marked in it before. */
  predicate SequenceRight(before: seq<Obs>, o: Obs) {
    && (o.BarrierEnded? <==> JustCompleted(before))
    && (o.BarrierEnded? ==> o.error == FirstError(before) && o.id == SeqOwner(before))
    && (o.SeqStarted? ==> !SeqOpen(before))
    && (o.StageDone? ==> SeqOpen(before) && o.stage in ALL_STAGES && o.stage !in SeqStages(before))
  }

  ghost predicate SequencesRight(log: seq<Obs>) {
    forall i :: 0 <= i < |log| ==> SequenceRight(log[..i], log[i])
  }

  /** The marks on the queue are those of the sequence open in the log. */
  ghost predicate MarksMatch(q: Queue) {
    && (InProgress(q) <==> SeqOpen(q.log))
    && !JustCompleted(q.log)
    && (InProgress(q) ==>
          && multiset(SeqStages(q.log)) == multiset(q.ordseq - {STARTED})
          && q.orderr == FirstError(q.log)
          && q.origBar == SeqOwner(q.log))
  }

  ghost predicate LogMatches(q: Queue) {
    && MarksMatch(q)
    && (forall id :: HasEnd(q.log, id) ==> 0 <= id < q.arrivals && !Alive(q, id))
    && EndsOnce(q.log)
    && SequencesRight(q.log)
  }

  ghost predicate StageInv(cfg: Config, q: Queue) {
    && OnePlace(q)
    && ProxiesMatch(q)
    && SeqShape(cfg, q)
    && LogMatches(q)
    && !q.bug
  }

  // ---- editing the list and the log ----

  lemma AppendObs(log: seq<Obs>, o: Obs)
    ensures (log + [o])[..|log|] == log
    ensures forall id :: HasEnd(log + [o], id) <==> HasEnd(log, id) || (IsEnd(o) && o.id == id)
    ensures EndsOnce(log) && (IsEnd(o) ==> !HasEnd(log, o.id)) ==> EndsOnce(log + [o])
  {
    var longer := log + [o];
    assert forall i :: 0 <= i < |log| ==> longer[i] == log[i];
    assert longer[|log|] == o;
  }

  lemma AppendSequences(log: seq<Obs>, o: Obs)
    requires SequencesRight(log) && SequenceRight(log, o)
    ensures SequencesRight(log + [o])
  {
    var longer := log + [o];
    forall i | 0 <= i < |longer| ensures SequenceRight(longer[..i], longer[i]) {
      if i < |log| { assert longer[..i] == log[..i]; } else { assert longer[..i] == log; }
    }
  }

  // ---- every step keeps the invariant ----

  predicate Neutral(o: Obs) {
    o.Queued? || o.Issued? || o.BarrierIssued?
  }

  lemma ObserveMarks(q: Queue, o: Obs)
    requires MarksMatch(q) && !o.SeqStarted? && !o.StageDone? && !o.BarrierEnded?
    ensures MarksMatch(Observe(q, o)) && SequenceRight(q.log, o)
  {
    assert (q.log + [o])[..|q.log|] == q.log;
  }

  lemma ObserveNeutral(q: Queue, o: Obs)
    requires LogMatches(q) && Neutral(o)
    ensures LogMatches(Observe(q, o))
  {
    AppendObs(q.log, o);
    ObserveMarks(q, o);
    AppendSequences(q.log, o);
    hide HasEnd, EndsOnce, SequencesRight, MarksMatch;
  }

  /** Ending a request that was just taken from its place. */
  lemma ObserveEnd(q: Queue, o: Obs)
    requires LogMatches(q) && (o.Ended? || o.Merged?)
    requires 0 <= o.id < q.arrivals && !Alive(q, o.id) && !HasEnd(q.log, o.id)
    ensures LogMatches(Observe(q, o))
  {
    AppendObs(q.log, o);
    ObserveMarks(q, o);
    AppendSequences(q.log, o);
    hide HasEnd, EndsOnce, SequencesRight, MarksMatch;
  }

  /** Nothing was logged, and what is in a place now either was before or never ended. */
  lemma SameLog(q: Queue, q': Queue)
    requires LogMatches(q) && q'.log == q.log && q.arrivals <= q'.arrivals
    requires q'.ordseq == q.ordseq && q'.orderr == q.orderr && q'.origBar == q.origBar
    requires forall x :: Alive(q', x) ==> Alive(q, x) || !HasEnd(q.log, x)
    ensures LogMatches(q')
  {
    hide HasEnd, EndsOnce, SequencesRight, SeqStages, FirstError, SeqOwner, SeqOpen, JustCompleted;
  }

  /** Every request is where it was. */
  lemma SamePlaces(q: Queue, q': Queue)
    requires q' == q.(log := q'.log, retired := q'.retired, warned := q'.warned)
    ensures OnePlace(q') <==> OnePlace(q)
    ensures ProxiesMatch(q') <==> ProxiesMatch(q)
    ensures forall x :: Alive(q', x) <==> Alive(q, x)
  {
  }

  lemma InsertPlaces(q: Queue, pos: nat, id: Id)
    requires OnePlace(q) && pos <= |q.list|
    requires 0 <= id < q.arrivals && !Alive(q, id)
    ensures OnePlace(InsertAt(q, pos, id))
  {
    InsertDistinct(q.list, pos, id);
    InsertHas(q.list, pos, id);
  }

  lemma InsertProxies(q: Queue, pos: nat, id: Id)
    requires ProxiesMatch(q) && pos <= |q.list| && 0 <= id
    ensures ProxiesMatch(InsertAt(q, pos, id))
  {
    InsertHas(q.list, pos, id);
  }

  lemma DispatchKeeps(cfg: Config, q: Queue, id: Id, pos: nat)
    requires StageInv(cfg, q) && MayDispatch(q, id, pos)
    ensures StageInv(cfg, Dispatch(q, id, pos))
  {
    hide OnePlace, ProxiesMatch, LogMatches, Distinct, Alive;
    var left := q.(sorted := q.sorted - {id});
    LeaveSorted(q, left, id);
    InsertPlaces(left, pos, id);
    InsertProxies(left, pos, id);
    InsertAlive(left, pos, id);
    SameLog(q, Dispatch(q, id, pos));
  }

  lemma LeaveSorted(q: Queue, left: Queue, id: Id)
    requires OnePlace(q) && id in q.sorted && left == q.(sorted := q.sorted - {id})
    ensures OnePlace(left) && !Alive(left, id) && 0 <= id < q.arrivals
    ensures ProxiesMatch(q) ==> ProxiesMatch(left)
    ensures forall x :: Alive(q, x) <==> Alive(left, x) || x == id
  {
  }

  lemma InsertAlive(q: Queue, pos: nat, id: Id)
    requires pos <= |q.list|
    ensures forall x :: Alive(InsertAt(q, pos, id), x) <==> Alive(q, x) || x == id
  {
    InsertHas(q.list, pos, id);
    hide Distinct;
  }

  lemma DrainKeeps(cfg: Config, q: Queue, moves: seq<Move>)
    requires StageInv(cfg, q) && MayDrain(q, moves)
    ensures StageInv(cfg, DrainSorted(q, moves))
    ensures var d := DrainSorted(q, moves); d.sorted == {} && d == q.(list := d.list, sorted := {})
    decreases |moves|
  {
    if moves != [] {
      DispatchKeeps(cfg, q, moves[0].id, moves[0].pos);
      DrainKeeps(cfg, Dispatch(q, moves[0].id, moves[0].pos), moves[1..]);
    }
  }

  lemma StampPlaces(q: Queue, ev: Event)
    requires OnePlace(q) && ev.Add? && (InProgress(q) ==> 0 <= q.origBar < q.arrivals)
    ensures OnePlace(Stamped(q, ev)) && !Alive(Stamped(q, ev), q.arrivals)
  {
  }

  lemma StampProxies(q: Queue, ev: Event)
    requires ProxiesMatch(q) && ev.Add?
    ensures ProxiesMatch(Stamped(q, ev))
  {
    assert forall id | IsProxy(id) :: Rq(Stamped(q, ev), id) == Rq(q, id);
  }

  lemma StampLog(q: Queue, ev: Event)
    requires LogMatches(q) && ev.Add?
    ensures LogMatches(Stamped(q, ev)) && !HasEnd(Stamped(q, ev).log, q.arrivals)
  {
    var o := Queued(q.arrivals, ev.fs, ev.fs && ev.hard);
    ObserveNeutral(q, o);
    AppendObs(q.log, o);
    SameLog(Observe(q, o), Stamped(q, ev));
    hide HasEnd, EndsOnce, SequencesRight, MarksMatch;
  }

  lemma StampKeeps(cfg: Config, q: Queue, ev: Event)
    requires StageInv(cfg, q) && ev.Add?
    ensures StageInv(cfg, Stamped(q, ev)) && !Alive(Stamped(q, ev), q.arrivals)
    ensures !HasEnd(Stamped(q, ev).log, q.arrivals)
  {
    StampPlaces(q, ev);
    StampProxies(q, ev);
    StampLog(q, ev);
    hide OnePlace, ProxiesMatch, LogMatches;
  }

  /** A request that is nowhere yet is put on the list. */
  lemma InsertKeeps(cfg: Config, q: Queue, pos: nat, id: Id)
    requires StageInv(cfg, q) && pos <= |q.list|
    requires 0 <= id < q.arrivals && !Alive(q, id) && !HasEnd(q.log, id)
    ensures StageInv(cfg, InsertAt(SetSoft(q, id), pos, id))
  {
    var soft := SetSoft(q, id);
    assert forall x :: Rq(soft, x).fs == Rq(q, x).fs && Rq(soft, x).started == Rq(q, x).started;
    InsertPlaces(soft, pos, id);
    InsertProxies(soft, pos, id);
    InsertHas(q.list, pos, id);
    SameLog(q, InsertAt(soft, pos, id));
    hide OnePlace, ProxiesMatch, LogMatches;
  }

  lemma SortPlaces(q: Queue, q': Queue, id: Id)
    requires OnePlace(q) && 0 <= id < q.arrivals && !Alive(q, id) && q' == q.(sorted := q.sorted + {id})
    ensures OnePlace(q') && (ProxiesMatch(q) ==> ProxiesMatch(q'))
    ensures forall x :: Alive(q', x) <==> Alive(q, x) || x == id
  {
  }

  lemma SortKeeps(cfg: Config, q: Queue, id: Id)
    requires StageInv(cfg, q) && 0 <= id < q.arrivals && !Alive(q, id) && !HasEnd(q.log, id)
    ensures StageInv(cfg, q.(sorted := q.sorted + {id}))
  {
    hide OnePlace, ProxiesMatch, LogMatches, Alive, HasEnd;
    var q' := q.(sorted := q.sorted + {id});
    SortPlaces(q, q', id);
    SameLog(q, q');
  }

  lemma AddBackKeeps(cfg: Config, q: Queue, ev: Event)
    requires StageInv(cfg, q) && ev.Add? && ActualWhere(ev) == Back && MayDrain(q, ev.moves)
    ensures StageInv(cfg, AddRequest(q, ev))
  {
    var d := DrainSorted(q, ev.moves);
    DrainKeeps(cfg, q, ev.moves);
    StampKeeps(cfg, d, ev);
    InsertKeeps(cfg, Stamped(d, ev), |d.list|, q.arrivals);
  }

  lemma AddKeeps(cfg: Config, q: Queue, ev: Event)
    requires StageInv(cfg, q) && ev.Add? && Enabled(cfg, q, ev)
    ensures StageInv(cfg, AddRequest(q, ev))
  {
    if ActualWhere(ev) == Back {
      AddBackKeeps(cfg, q, ev);
    } else {
      StampKeeps(cfg, q, ev);
      if ActualWhere(ev) == Front { InsertKeeps(cfg, Stamped(q, ev), 0, q.arrivals); }
      else { SortKeeps(cfg, Stamped(q, ev), q.arrivals); }
    }
  }

  lemma DequeuePlaces(q: Queue, i: nat)
    requires OnePlace(q) && i < |q.list|
    ensures OnePlace(Dequeue(q, i))
  {
    var id, q' := q.list[i], Dequeue(q, i);
    RemoveDistinct(q.list, i);
    assert id in q.list;
    assert forall x :: Rq(q', x) == Rq(q, x);
    forall x | x in q'.list ensures x in q.list && x !in q'.flight && !IsOrig(q', x) {
      assert x in q.list && x != id;
      assert x !in q.flight && !IsOrig(q, x);
    }
  }

  lemma DequeueProxies(q: Queue, i: nat)
    requires ProxiesMatch(q) && Distinct(q.list) && i < |q.list| && Rq(q, q.list[i]).started
    ensures ProxiesMatch(Dequeue(q, i))
  {
    var id, q' := q.list[i], Dequeue(q, i);
    RemoveDistinct(q.list, i);
    assert id in q.list;
    assert forall x :: Rq(q', x) == Rq(q, x);
  }

  lemma DequeueKeeps(cfg: Config, q: Queue, i: nat)
    requires StageInv(cfg, q) && i < |q.list| && Rq(q, q.list[i]).started
    ensures StageInv(cfg, Dequeue(q, i))
  {
    DequeuePlaces(q, i);
    DequeueProxies(q, i);
    RemoveDistinct(q.list, i);
    SameLog(q, Dequeue(q, i));
    hide OnePlace, ProxiesMatch, LogMatches;
  }

  lemma RequeuePlaces(q: Queue, q': Queue, pos: nat, id: Id)
    requires OnePlace(q) && id in q.flight && pos <= |q.list|
    requires q' == q.(rqs := q'.rqs, inFlight := q'.inFlight, flight := q.flight - {id},
                      list := q.list[..pos] + [id] + q.list[pos..])
    requires q'.rqs == q.rqs[id := Rq(q, id).(started := false, soft := true)]
    ensures OnePlace(q')
  {
    InsertDistinct(q.list, pos, id);
    InsertHas(q.list, pos, id);
    assert forall x :: Rq(q', x).fs == Rq(q, x).fs;
  }

  lemma RequeueProxies(q: Queue, q': Queue, pos: nat, id: Id)
    requires ProxiesMatch(q) && id in q.flight && pos <= |q.list|
    requires q' == q.(rqs := q'.rqs, inFlight := q'.inFlight, flight := q.flight - {id},
                      list := q.list[..pos] + [id] + q.list[pos..])
    requires q'.rqs == q.rqs[id := Rq(q, id).(started := false, soft := true)]
    ensures ProxiesMatch(q')
  {
    InsertHas(q.list, pos, id);
    assert forall x :: x != id ==> Rq(q', x) == Rq(q, x);
  }

  lemma RequeueKeeps(cfg: Config, q: Queue, id: Id)
    requires StageInv(cfg, q) && id in q.flight
    ensures StageInv(cfg, Requeue(q, id))
  {
    var left := Returned(q, id).(rqs := q.rqs[id := Rq(q, id).(started := false, soft := true)]);
    var pos := if q.ordseq == {} then 0 else RequeuePos(left, id, 0);
    hide OnePlace, ProxiesMatch, LogMatches, ReqSeq, CurSeq;
    RequeuePlaces(q, Requeue(q, id), pos, id);
    RequeueProxies(q, Requeue(q, id), pos, id);
    InsertHas(q.list, pos, id);
    SameLog(q, Requeue(q, id));
  }

  /** The open sequence after a stage was marked. */
  lemma MarkSequence(q: Queue, stage: int, error: int)
    requires MarksMatch(q) && InProgress(q) && stage !in q.ordseq && stage in {DRAIN, PREFLUSH, BAR, POSTFLUSH}
    ensures var log := q.log + [StageDone(stage, error)];
            && multiset(SeqStages(log)) == multiset(q.ordseq + {stage} - {STARTED})
            && FirstError(log) == (if error != 0 && q.orderr == 0 then error else q.orderr)
            && SeqOwner(log) == q.origBar && SeqOpen(log)
    ensures SequenceRight(q.log, StageDone(stage, error))
  {
    var o := StageDone(stage, error);
    assert (q.log + [o])[..|q.log|] == q.log;
    assert q.ordseq + {stage} - {STARTED} == (q.ordseq - {STARTED}) + {stage};
    assert stage !in SeqStages(q.log) by {
      assert stage in SeqStages(q.log) <==> stage in multiset(SeqStages(q.log));
    }
  }

  /** The log after a stage was marked. */
  lemma MarkLog(q: Queue, stage: int, error: int)
    requires LogMatches(q) && InProgress(q) && stage !in q.ordseq && stage in {DRAIN, PREFLUSH, BAR, POSTFLUSH}
    ensures var log := q.log + [StageDone(stage, error)];
            && multiset(SeqStages(log)) == multiset(q.ordseq + {stage} - {STARTED})
            && FirstError(log) == (if error != 0 && q.orderr == 0 then error else q.orderr)
            && SeqOwner(log) == q.origBar && SeqOpen(log)
            && (forall id :: HasEnd(log, id) <==> HasEnd(q.log, id)) && EndsOnce(log) && SequencesRight(log)
  {
    var o := StageDone(stage, error);
    MarkSequence(q, stage, error);
    AppendObs(q.log, o);
    AppendSequences(q.log, o);
    hide HasEnd, EndsOnce, SequencesRight, SeqStages, FirstError, SeqOwner, SeqOpen, JustCompleted;
  }

  lemma NotAllMarked(ordseq: set<int>)
    requires ordseq <= {STARTED, DRAIN, PREFLUSH, BAR, POSTFLUSH} && STARTED in ordseq && CurSeq(ordseq) != DONE
    ensures multiset(ordseq - {STARTED}) != ALL_STAGES
  {
    assert exists s :: s in ALL_STAGES && s !in ordseq by {
      assert CurSeq(ordseq) in ALL_STAGES && CurSeq(ordseq) !in ordseq;
    }
  }

  /** A mark that leaves a stage open. */
  lemma MarkMatches(q: Queue, q': Queue, stage: int, error: int)
    requires LogMatches(q) && InProgress(q) && stage !in q.ordseq && stage in {DRAIN, PREFLUSH, BAR, POSTFLUSH}
    requires STARTED in q.ordseq && q.ordseq <= {STARTED, DRAIN, PREFLUSH, BAR, POSTFLUSH}
    requires CurSeq(q.ordseq + {stage}) != DONE
    requires q' ==
             Observe(q, StageDone(stage, error)).(orderr := q'.orderr, ordseq := q.ordseq + {stage}, bug := q'.bug)
    requires q'.orderr == if error != 0 && q.orderr == 0 then error else q.orderr
    ensures LogMatches(q')
  {
    MarkLog(q, stage, error);
    NotAllMarked(q.ordseq + {stage});
    hide HasEnd, EndsOnce, SequencesRight, SeqStages, FirstError, SeqOwner, SeqOpen;
  }

  /** The embedded requests are queued or issued exactly while their stage is open, the one
      given being counted as done. */
  ghost predicate OpenBut(q: Queue, stage: int) {
    forall id | IsProxy(id) ::
      (id in q.list || id in q.flight) <==> (StageOf(id) !in q.ordseq && StageOf(id) != stage)
  }

  lemma MarkPlaces(cfg: Config, q: Queue, q': Queue, stage: int)
    requires OnePlace(q) && SeqShape(cfg, q) && InProgress(q) && stage in {DRAIN, PREFLUSH, BAR, POSTFLUSH}
    requires CurSeq(q.ordseq + {stage}) != DONE && (stage != DRAIN ==> DRAIN in q.ordseq)
    requires OpenBut(q, stage)
    requires q' == q.(log := q'.log, orderr := q'.orderr, ordseq := q.ordseq + {stage})
    ensures OnePlace(q') && ProxiesMatch(q') && SeqShape(cfg, q')
  {
  }

  /** Marking a stage whose own request, if it has one, was just released. */
  lemma CompleteSeqKeeps(cfg: Config, q: Queue, stage: int, error: int)
    requires OnePlace(q) && SeqShape(cfg, q) && LogMatches(q) && !q.bug
    requires InProgress(q) && stage !in q.ordseq && stage in {DRAIN, PREFLUSH, BAR, POSTFLUSH}
    requires stage != DRAIN ==> DRAIN in q.ordseq
    requires OpenBut(q, stage)
    ensures StageInv(cfg, CompleteSeq(q, stage, error))
  {
    var q' := CompleteSeq(q, stage, error);
    if CurSeq(q.ordseq + {stage}) == DONE {
      EndKeeps(cfg, q, stage, error);
    } else {
      MarkMatches(q, q', stage, error);
      MarkPlaces(cfg, q, q', stage);
      hide LogMatches, OnePlace, ProxiesMatch, SeqShape;
    }
  }

  /** The log after the last stage ended the barrier. */
  lemma EndLog(log: seq<Obs>, id: Id)
    requires EndsOnce(log) && SequencesRight(log) && !HasEnd(log, id)
    requires JustCompleted(log) && SeqOwner(log) == id
    ensures var ended := log + [BarrierEnded(id, FirstError(log))];
            && EndsOnce(ended) && SequencesRight(ended)
            && !SeqOpen(ended) && !JustCompleted(ended)
            && forall x :: HasEnd(ended, x) <==> HasEnd(log, x) || x == id
  {
    var o := BarrierEnded(id, FirstError(log));
    hide HasEnd, EndsOnce, SequencesRight, SeqStages, SeqOwner, FirstError;
    AppendObs(log, o);
    AppendSequences(log, o);
  }

  /** Nothing of the sequence is left behind. */
  lemma EndPlaces(cfg: Config, q: Queue, q': Queue)
    requires OnePlace(q) && forall id | IsProxy(id) :: id !in q.list && id !in q.flight
    requires q' == q.(orderr := q'.orderr, ordseq := {}, retired := q'.retired, log := q'.log)
    ensures OnePlace(q') && ProxiesMatch(q') && SeqShape(cfg, q')
  {
  }

  lemma EndLogMatches(q: Queue, q': Queue, log: seq<Obs>)
    requires InProgress(q) && !HasEnd(log, q.origBar) && 0 <= q.origBar < q.arrivals
    requires q.origBar !in q.list && q.origBar !in q.sorted && q.origBar !in q.flight
    requires forall id :: HasEnd(log, id) ==> 0 <= id < q.arrivals && !Alive(q, id)
    requires EndsOnce(log) && SequencesRight(log)
    requires JustCompleted(log) && SeqOwner(log) == q.origBar
    requires q' == q.(orderr := q'.orderr, ordseq := {}, retired := q'.retired,
                      log := log + [BarrierEnded(q.origBar, FirstError(log))])
    ensures LogMatches(q')
  {
    assert !Alive(q', q.origBar) && forall x :: Alive(q', x) ==> Alive(q, x);
    EndLog(log, q.origBar);
    hide HasEnd, EndsOnce, SequencesRight, SeqStages, FirstError, SeqOwner, SeqOpen, JustCompleted, Alive;
  }

  /** The last stage ends the barrier. */
  lemma EndKeeps(cfg: Config, q: Queue, stage: int, error: int)
    requires OnePlace(q) && SeqShape(cfg, q) && LogMatches(q) && !q.bug
    requires InProgress(q) && stage !in q.ordseq && stage in {DRAIN, PREFLUSH, BAR, POSTFLUSH}
    requires OpenBut(q, stage)
    requires CurSeq(q.ordseq + {stage}) == DONE
    ensures StageInv(cfg, CompleteSeq(q, stage, error))
  {
    var q' := CompleteSeq(q, stage, error);
    assert forall id | IsProxy(id) :: id !in q.list && id !in q.flight by { AllMarked(q.ordseq + {stage}); }
    EndPlaces(cfg, q, q');
    assert LogMatches(q') by {
      AllMarked(q.ordseq + {stage});
      MarkLog(q, stage, error);
      EndLogMatches(q, q', q.log + [StageDone(stage, error)]);
    }
  }

  lemma AllMarked(ordseq: set<int>)
    requires ordseq <= {STARTED, DRAIN, PREFLUSH, BAR, POSTFLUSH} && CurSeq(ordseq) == DONE
    ensures ordseq - {STARTED} == {DRAIN, PREFLUSH, BAR, POSTFLUSH}
    ensures multiset(ordseq - {STARTED}) == ALL_STAGES
  {
  }

  lemma CheckDrainedKeeps(cfg: Config, q: Queue)
    requires StageInv(cfg, q)
    ensures StageInv(cfg, CheckDrained(q))
  {
    if InProgress(q) && q.inFlight == 0 && CurSeq(q.ordseq) == DRAIN {
      assert BAR_RQ in q.list || BAR_RQ in q.flight;
      if ReqSeq(q, q.list[0]) > DRAIN { CompleteSeqKeeps(cfg, q, DRAIN, 0); }
    }
  }

  lemma ReturnedKeeps(cfg: Config, q: Queue, id: Id)
    requires StageInv(cfg, q) && id in q.flight
    ensures var left := Returned(q, id);
            && OnePlace(left) && SeqShape(cfg, left) && LogMatches(left) && !left.bug && !Alive(left, id)
            && (0 <= id ==> ProxiesMatch(left) && !HasEnd(left.log, id))
  {
  }

  lemma CompleteAddedKeeps(cfg: Config, q: Queue, id: Id, uptodate: int)
    requires StageInv(cfg, q) && id in q.flight && 0 <= id
    ensures StageInv(cfg, Complete(q, id, uptodate))
  {
    var left := Returned(q, id);
    ReturnedKeeps(cfg, q, id);
    ObserveEnd(left, Ended(id, ErrorOf(uptodate)));
    CheckDrainedKeeps(cfg, Observe(left, Ended(id, ErrorOf(uptodate))));
  }

  lemma CompleteProxyKeeps(cfg: Config, q: Queue, id: Id, uptodate: int)
    requires StageInv(cfg, q) && id in q.flight && id < 0
    ensures StageInv(cfg, Complete(q, id, uptodate))
  {
    var left := Returned(q, id);
    ReturnedKeeps(cfg, q, id);
    assert CheckDrained(left) == left;
    CompleteSeqKeeps(cfg, left, StageOf(id), ErrorOf(uptodate));
  }

  lemma MergedKeeps(cfg: Config, q: Queue, kept: Id, gone: Id)
    requires StageInv(cfg, q) && gone in q.sorted
    ensures StageInv(cfg, Observe(q.(sorted := q.sorted - {gone}), Merged(gone, kept)))
  {
    hide OnePlace, ProxiesMatch, Alive, HasEnd, EndsOnce, SequencesRight, MarksMatch;
    var left := q.(sorted := q.sorted - {gone});
    LeaveSorted(q, left, gone);
    SameLog(q, left);
    ObserveEnd(left, Merged(gone, kept));
    SamePlaces(left, Observe(left, Merged(gone, kept)));
  }

  lemma MergeKeeps(cfg: Config, q: Queue, kept: Id, gone: Id)
    requires StageInv(cfg, q) && gone in q.sorted
    ensures StageInv(cfg, Merge(q, kept, gone))
  {
    MergedKeeps(cfg, q, kept, gone);
    CheckDrainedKeeps(cfg, Observe(q.(sorted := q.sorted - {gone}), Merged(gone, kept)));
  }

  lemma StartedPlaces(cfg: Config, q: Queue, q': Queue)
    requires StageInv(cfg, q) && q.list != []
    requires InProgress(q) && IsProxy(q.list[0]) ==> DRAIN in q.ordseq
    requires q' == q.(rqs := q.rqs[q.list[0] := Rq(q, q.list[0]).(started := true)], log := q'.log)
    ensures OnePlace(q') && ProxiesMatch(q')
  {
    var id := q.list[0];
    assert forall x :: Rq(q', x).fs == Rq(q, x).fs && (x != id ==> Rq(q', x) == Rq(q, x));
  }

  lemma StartedLog(q: Queue)
    requires LogMatches(q) && q.list != [] && !Rq(q, q.list[0]).started
    ensures LogMatches(MarkStarted(q))
  {
    var obs := IssueObs(q, q.list[0]);
    var seen := q.(log := q.log + obs);
    assert forall x :: Alive(MarkStarted(q), x) <==> Alive(seen, x);
    if obs == [] { assert q.log + [] == q.log; }
    else { ObserveNeutral(q, obs[0]); }
    assert LogMatches(seen);
    hide LogMatches, Alive;
    SameLog(seen, MarkStarted(q));
  }

  lemma MarkStartedKeeps(cfg: Config, q: Queue)
    requires StageInv(cfg, q) && q.list != []
    requires InProgress(q) && IsProxy(q.list[0]) ==> DRAIN in q.ordseq
    ensures StageInv(cfg, MarkStarted(q))
  {
    var id := q.list[0];
    if !Rq(q, id).started {
      StartedPlaces(cfg, q, MarkStarted(q));
      StartedLog(q);
      hide OnePlace, ProxiesMatch, LogMatches;
    }
  }

  /** While the sequence is being set up: the stages in `todo` have neither been skipped
      nor got their request yet. */
  ghost predicate SettingUp(q: Queue, todo: set<int>) {
    OnePlace(q) && LogMatches(q) && !q.bug && SetUpTo(q, todo)
  }

  ghost predicate SetUpTo(q: Queue, todo: set<int>) {
    && STARTED in q.ordseq && q.ordseq <= {STARTED, DRAIN, PREFLUSH, BAR, POSTFLUSH} - todo
    && DRAIN !in q.ordseq && BAR !in q.ordseq
    && 0 <= q.origBar < q.arrivals
    && (forall id | IsProxy(id) :: id in q.list <==> StageOf(id) !in q.ordseq && StageOf(id) !in todo)
    && (forall id | IsProxy(id) :: id !in q.flight && (id in q.list ==> !Rq(q, id).started))
  }

  lemma UnlinkedLog(q: Queue)
    requires LogMatches(q) && !InProgress(q) && q.list != []
    ensures LogMatches(Unlinked(q))
  {
    var o := SeqStarted(q.list[0]);
    UnlinkedMarks(q);
    AppendObs(q.log, o);
    AppendSequences(q.log, o);
    UnlinkedAlive(q);
    hide HasEnd, EndsOnce, SequencesRight, MarksMatch, Alive, SequenceRight;
  }

  lemma UnlinkedAlive(q: Queue)
    requires !InProgress(q) && q.list != []
    ensures forall x :: Alive(Unlinked(q), x) ==> Alive(q, x)
  {
    forall x | Alive(Unlinked(q), x) ensures Alive(q, x) {
      if x in q.list[1..] { assert x in q.list; }
    }
  }

  lemma UnlinkedMarks(q: Queue)
    requires MarksMatch(q) && !InProgress(q) && q.list != []
    ensures MarksMatch(Unlinked(q)) && SequenceRight(q.log, SeqStarted(q.list[0]))
  {
    assert (q.log + [SeqStarted(q.list[0])])[..|q.log|] == q.log;
    assert q.ordseq + {STARTED} - {STARTED} == {};
  }

  lemma UnlinkedPlaces(cfg: Config, q: Queue, q': Queue)
    requires OnePlace(q) && !InProgress(q) && q.list != [] && !IsProxy(q.list[0])
    requires q' == q.(list := q.list[1..], ordseq := {STARTED}, origBar := q.list[0],
                      orderr := q'.orderr, inFlight := q'.inFlight, log := q'.log)
    ensures OnePlace(q')
  {
    FirstOnce(q.list);
    hide Distinct;
    assert forall x :: Rq(q', x) == Rq(q, x);
  }

  lemma UnlinkedSet(q: Queue)
    requires ProxiesMatch(q) && !InProgress(q) && q.list != [] && 0 <= q.list[0] < q.arrivals
    ensures SetUpTo(Unlinked(q), {PREFLUSH, BAR, POSTFLUSH})
  {
    var q' := Unlinked(q);
    assert forall x :: x in q'.list ==> x in q.list;
    assert q'.ordseq == {STARTED};
  }

  lemma UnlinkedKeeps(cfg: Config, q: Queue)
    requires StageInv(cfg, q) && !InProgress(q) && q.list != []
    ensures SettingUp(Unlinked(q), {PREFLUSH, BAR, POSTFLUSH})
  {
    HeadAdded(q);
    hide OnePlace, ProxiesMatch, LogMatches, SetUpTo;
    UnlinkedPlaces(cfg, q, Unlinked(q));
    UnlinkedSet(q);
    UnlinkedLog(q);
  }

  lemma HeadAdded(q: Queue)
    requires OnePlace(q) && ProxiesMatch(q) && !InProgress(q) && q.list != []
    ensures 0 <= q.list[0] < q.arrivals && !IsProxy(q.list[0])
  {
    var id := q.list[0];
    assert id in q.list;
  }

  lemma PushPlaces(q: Queue, id: Id, rq: Request)
    requires OnePlace(q) && IsProxy(id) && id !in q.list && id !in q.flight && rq.fs == (id == BAR_RQ)
    requires InProgress(q) ==> 0 <= q.origBar
    ensures OnePlace(Push(q, id, rq))
  {
    var q' := Push(q, id, rq);
    assert q'.list == q.list[..0] + [id] + q.list[0..];
    InsertDistinct(q.list, 0, id);
    InsertHas(q.list, 0, id);
    hide Distinct;
    assert forall x :: x != id ==> Rq(q', x) == Rq(q, x);
  }

  lemma PushSet(q: Queue, id: Id, rq: Request, todo: set<int>)
    requires SetUpTo(q, todo) && IsProxy(id) && StageOf(id) in todo && !rq.started
    ensures SetUpTo(Push(q, id, rq), todo - {StageOf(id)}) && id !in q.list && id !in q.flight
  {
    var q' := Push(q, id, rq);
    assert forall x :: x in q'.list <==> x in q.list || x == id;
    assert forall x :: x != id ==> Rq(q', x) == Rq(q, x);
  }

  lemma PushLog(q: Queue, id: Id, rq: Request)
    requires LogMatches(q) && IsProxy(id)
    ensures LogMatches(Push(q, id, rq))
  {
    var q' := Push(q, id, rq);
    assert forall x :: x in q'.list <==> x in q.list || x == id;
    SameLog(q, q');
  }

  lemma PushKeeps(q: Queue, id: Id, rq: Request, todo: set<int>)
    requires SettingUp(q, todo) && IsProxy(id) && StageOf(id) in todo && !rq.started && rq.fs == (id == BAR_RQ)
    ensures SettingUp(Push(q, id, rq), todo - {StageOf(id)})
  {
    PushSet(q, id, rq, todo);
    PushPlaces(q, id, rq);
    PushLog(q, id, rq);
    hide OnePlace, LogMatches, SetUpTo;
  }

  lemma SkipSet(q: Queue, stage: int, todo: set<int>)
    requires SetUpTo(q, todo) && stage in todo && stage in {PREFLUSH, POSTFLUSH}
    ensures SetUpTo(MarkSkipped(q, stage), todo - {stage})
    ensures stage !in q.ordseq && CurSeq(q.ordseq + {stage}) != DONE && InProgress(q)
  {
    var q' := MarkSkipped(q, stage);
    assert forall x :: Rq(q', x) == Rq(q, x);
  }

  lemma SkipPlaces(q: Queue, q': Queue)
    requires OnePlace(q) && InProgress(q) && InProgress(q')
    requires q' == q.(ordseq := q'.ordseq, log := q'.log)
    ensures OnePlace(q')
  {
    assert forall x :: Rq(q', x) == Rq(q, x);
  }

  lemma SkipKeeps(q: Queue, stage: int, todo: set<int>)
    requires SettingUp(q, todo) && stage in todo && stage in {PREFLUSH, POSTFLUSH}
    ensures SettingUp(MarkSkipped(q, stage), todo - {stage})
  {
    hide OnePlace, LogMatches, CurSeq;
    SkipSet(q, stage, todo);
    SkipPlaces(q, MarkSkipped(q, stage));
    MarkMatches(q, MarkSkipped(q, stage), stage, 0);
  }

  lemma StackKeeps(mode: Mode, q: Queue)
    requires SettingUp(q, {PREFLUSH, BAR, POSTFLUSH}) && mode.Ordered?
    ensures SettingUp(StackProxies(mode, q), {})
    ensures var s := StackProxies(mode, q); s.list != [] && IsProxy(s.list[0])
  {
    hide OnePlace, LogMatches, CurSeq;
    var todo := {PREFLUSH, BAR, POSTFLUSH};
    if mode.postflush { PushKeeps(q, POST_FLUSH_RQ, FLUSH_REQUEST, todo); } else { SkipKeeps(q, POSTFLUSH, todo); }
    var post := if mode.postflush then Push(q, POST_FLUSH_RQ, FLUSH_REQUEST) else MarkSkipped(q, POSTFLUSH);
    PushKeeps(post, BAR_RQ, PROXY_REQUEST, todo - {POSTFLUSH});
    var bar := Push(post, BAR_RQ, PROXY_REQUEST);
    var left := todo - {POSTFLUSH} - {BAR};
    if mode.preflush { PushKeeps(bar, PRE_FLUSH_RQ, FLUSH_REQUEST, left); } else { SkipKeeps(bar, PREFLUSH, left); }
    assert left - {PREFLUSH} == {};
  }

  lemma DrainedKeeps(cfg: Config, q: Queue)
    requires SettingUp(q, {}) && cfg.mode.Ordered?
    ensures StageInv(cfg, MarkSkipped(q, DRAIN))
  {
    hide OnePlace, LogMatches;
    SkipPlaces(q, MarkSkipped(q, DRAIN));
    MarkMatches(q, MarkSkipped(q, DRAIN), DRAIN, 0);
  }

  lemma StartKeeps(cfg: Config, q: Queue)
    requires StageInv(cfg, q) && !InProgress(q) && cfg.mode.Ordered? && q.list != []
    ensures StageInv(cfg, StartOrdered(cfg.mode, q).0)
    ensures var (q', ok) := StartOrdered(cfg.mode, q); q'.list != [] && (ok ==> DRAIN in q'.ordseq)
  {
    UnlinkedKeeps(cfg, q);
    StackKeeps(cfg.mode, Unlinked(q));
    var s := StackProxies(cfg.mode, Unlinked(q));
    if cfg.mode.tag || s.inFlight == 0 { DrainedKeeps(cfg, s); }
  }

  lemma FirstOnce(s: seq<Id>)
    requires Distinct(s) && s != []
    ensures Distinct(s[1..]) && s[0] in s && s[0] !in s[1..] && forall x :: x in s[1..] ==> x in s
  {
    assert s == [s[0]] + s[1..];
  }

  lemma DropFirst(q: Queue, left: Queue)
    requires OnePlace(q) && !InProgress(q) && q.list != [] && left == q.(list := q.list[1..])
    ensures OnePlace(left) && !Alive(left, q.list[0]) && Alive(q, q.list[0])
    ensures forall x :: Alive(left, x) ==> Alive(q, x)
  {
    FirstOnce(q.list);
    hide Distinct;
  }

  lemma RejectKeeps(cfg: Config, q: Queue)
    requires StageInv(cfg, q) && !InProgress(q) && q.list != []
    ensures StageInv(cfg, Reject(q))
  {
    var id, left := q.list[0], q.(list := q.list[1..]);
    assert id in q.list && !IsProxy(id) && -3 <= id < q.arrivals;
    DropFirst(q, left);
    assert ProxiesMatch(left) by { hide OnePlace, LogMatches; assert forall x :: x in q.list[1..] ==> x in q.list; }
    SameLog(q, left);
    assert !HasEnd(q.log, id);
    hide HasEnd, LogMatches, OnePlace, ProxiesMatch, Alive;
    var ended := Observe(left, Ended(id, -EOPNOTSUPP));
    ObserveEnd(left, Ended(id, -EOPNOTSUPP));
    SamePlaces(left, Reject(q));
    SamePlaces(ended, Reject(q));
    SameLog(ended, Reject(q));
  }

  lemma CandidateKeeps(cfg: Config, q: Queue)
    requires StageInv(cfg, q)
    ensures var (q', ok) := NextCandidate(cfg.mode, q);
            StageInv(cfg, q') &&
              (ok ==> q'.list != [] && (InProgress(q') && IsProxy(q'.list[0]) ==> DRAIN in q'.ordseq))
    decreases |q.list|
  {
    if q.list != [] {
      if cfg.mode.Unsupported? {
        if q.ordseq == {} && IsBarrier(Rq(q, q.list[0])) {
          RejectKeeps(cfg, q);
          CandidateKeeps(cfg, Reject(q));
        }
      } else if q.ordseq == {} {
        assert q.list[0] in q.list;
        if IsBarrier(Rq(q, q.list[0])) { StartKeeps(cfg, q); }
      } else {
        assert NextCandidate(cfg.mode, q).1 && IsProxy(q.list[0]) ==> DRAIN in q.ordseq;
      }
    }
  }

  /** Every step keeps the invariant. */
  lemma StepKeeps(cfg: Config, q: Queue, ev: Event)
    requires StageInv(cfg, q) && Enabled(cfg, q, ev)
    ensures StageInv(cfg, Apply(cfg, q, ev))
  {
    match ev
    case Add(_, _, _, _, _, _) => AddKeeps(cfg, q, ev);
    case Dispatched(id, pos) => DispatchKeeps(cfg, q, id, pos);
    case MergeAway(kept, gone) => MergeKeeps(cfg, q, kept, gone);
    case NextRequest =>
      CandidateKeeps(cfg, q);
      var (q', ok) := NextCandidate(cfg.mode, q);
      if ok { MarkStartedKeeps(cfg, q'); }
    case Dequeued(i) => DequeueKeeps(cfg, q, i);
    case Requeued(id) => RequeueKeeps(cfg, q, id);
    case Completed(id, uptodate) =>
      if 0 <= id { CompleteAddedKeeps(cfg, q, id, uptodate); } else { CompleteProxyKeeps(cfg, q, id, uptodate); }
  }

  lemma {:induction false} RunKeeps(cfg: Config, q: Queue, run: seq<Event>)
    requires StageInv(cfg, q) && ValidRun(cfg, q, run)
    ensures StageInv(cfg, After(cfg, q, run))
    decreases |run|
  {
    if run != [] {
      StepKeeps(cfg, q, run[0]);
      RunKeeps(cfg, Apply(cfg, q, run[0]), run[1..]);
    }
  }

  /** In every run, whatever the mode and the order in which stages end: no BUG_ON fires
      and no request is ended twice.  Each sequence marks each of the four stages at most
      once; the mark that completes them is followed at once by the end of the barrier the
      sequence was started for, with the first error recorded, and nothing else ends a
      barrier.  The sequence still open, if any, is the one in progress, and it is one that
      lacks a stage. */
  lemma BarrierEndsOnce(cfg: Config, run: seq<Event>)
    requires ValidRun(cfg, EMPTY_QUEUE, run)
    ensures var q := After(cfg, EMPTY_QUEUE, run);
            && !q.bug && EndsOnce(q.log) && SequencesRight(q.log)
            && !JustCompleted(q.log)
            && (SeqOpen(q.log) <==> InProgress(q))
            && (InProgress(q) ==>
                  && multiset(SeqStages(q.log)) == multiset(q.ordseq - {STARTED})
                  && CurSeq(q.ordseq) in ALL_STAGES && CurSeq(q.ordseq) !in SeqStages(q.log)
                  && SeqOwner(q.log) == q.origBar)
  {
    RunKeeps(cfg, EMPTY_QUEUE, run);
    var q := After(cfg, EMPTY_QUEUE, run);
    if InProgress(q) {
      assert CurSeq(q.ordseq) in ALL_STAGES && CurSeq(q.ordseq) !in multiset(SeqStages(q.log));
    }
  }

  /** Read along the log: a barrier is ended exactly at the places that come right after
      the mark of the last missing stage. */
  lemma EndedWhenComplete(cfg: Config, run: seq<Event>, i: nat)
    requires ValidRun(cfg, EMPTY_QUEUE, run) && i < |After(cfg, EMPTY_QUEUE, run).log|
    ensures var log := After(cfg, EMPTY_QUEUE, run).log;
            (log[i].StageDone? && multiset(SeqStages(log[..i + 1])) == ALL_STAGES) <==>
            (i + 1 < |log| && log[i + 1].BarrierEnded?)
  {
    var log := After(cfg, EMPTY_QUEUE, run).log;
    BarrierEndsOnce(cfg, run);
    assert log[..i + 1][|log[..i + 1]| - 1] == log[i];
    if i + 1 < |log| { assert SequenceRight(log[..i + 1], log[i + 1]); }
    else { assert log[..i + 1] == log; }
  }
}
