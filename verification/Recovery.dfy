/** What can still be made good. An estimate is out of reach once an update came first, its price does not exist,
    or no process will handle an event of the voyage again; that never changes back. From every other state a
    restart followed by healthy passes and polls brings the estimate, and drains the pipeline for all. */
module Recovery {
  import opened Wrappers
  import opened Voyages
  import opened Money
  import opened Storage
  import opened Broker
  import opened OutboxRelay
  import opened RelayProgress
  import opened Polling
  import opened EstimatorConsumer
  import opened EstimateConsumer
  import opened Pipeline
  import opened Invariants
  import opened PipelineTheorems
  import opened CommitDiscipline

  // ---- out of reach --------------------------------------------------------------------------------

  predicate NotOf(r: Record<VoyageCreated>, id: string) { r.Event? ==> r.value.id != id }

  predicate NotFor(r: Record<EstimateReady>, id: string) { r.Event? ==> r.value.id != id }

  /** Nothing of the voyage is on its way: its outbox row is stamped, its events are below the estimator's
      committed offset, and its estimates, if any, below the offset `floor`. */
  ghost predicate Quiet(s: State, id: string, floor: nat) {
    && id in s.db.voyages
    && (forall k :: k in s.db.outbox && s.db.outbox[k].payload.id == id ==> s.db.outbox[k].published)
    && (forall i :: 0 <= i < |s.relay.batch| && s.relay.batch[i] in s.db.outbox ==>
          s.db.outbox[s.relay.batch[i]].payload.id != id)
    && (forall i :: s.logs.estimatorCommitted <= i < |s.logs.created| ==> NotOf(s.logs.created[i], id))
    && (forall i :: floor <= i < |s.logs.ready| ==> NotFor(s.logs.ready[i], id))
  }

  /** Quiet below what the voyage consumer has committed, and without an estimate. */
  ghost predicate Passed(s: State, id: string, floor: nat) {
    Quiet(s, id, floor) && floor <= s.logs.voyageCommitted && s.db.voyages[id].estimate.None?
  }

  lemma StatementPassed(w: World, d: DbStep, id: string, floor: nat)
    requires Inv(w) && Passed(w.s, id, floor)
    ensures Passed(Next(w.s, Statement(d)), id, floor)
  {
    hide Contents, Estimates, Topics, DeadLetters, EstProgress, VoyProgress, AppliedOnce;
  }

  lemma RelayingPassed(w: World, r: RelayStep, id: string, floor: nat)
    requires Passed(w.s, id, floor)
    ensures Passed(Next(w.s, Relaying(r)), id, floor)
  {
    match r
    case Select =>
      UnpublishedExact(w.s.db.outbox, 0, w.s.db.nextId);
      var ids := First(Pending(w.s.db), BATCH);
      assert forall i :: 0 <= i < |ids| ==> ids[i] == Pending(w.s.db)[i];
    case Publish(fate) =>
    case Mark(fault) =>
  }

  lemma EstimatingPassed(w: World, e: EstStep, id: string, floor: nat)
    requires Inv(w) && Passed(w.s, id, floor)
    ensures Passed(Next(w.s, Estimating(e)), id, floor)
  {
    hide Inv, PriceOf;
    MembersMoveOn(w);
    match e
    case HandleStep(fate) =>
    case _ =>
  }

  /** A member stands at or above its committed offset, and a commit raises it. */
  lemma MembersMoveOn(w: World)
    requires Inv(w)
    ensures w.s.logs.estimatorCommitted <= w.s.est.next && w.s.logs.voyageCommitted <= w.s.voy.next
    ensures w.s.est.committable != [] ==> CommitOffset(w.s.est) > w.s.logs.estimatorCommitted
    ensures w.s.voy.committable != [] ==> CommitOffset(w.s.voy) > w.s.logs.voyageCommitted
  {
    hide Ledger, Contents, Estimates, Topics, Relayed, DeadLetters, AppliedOnce, PriceOf, Settled;
  }

  lemma ApplyingPassed(w: World, y: VoyStep, id: string, floor: nat)
    requires Inv(w) && Passed(w.s, id, floor)
    ensures Passed(Next(w.s, Applying(y)), id, floor)
  {
    hide Inv;
    MembersMoveOn(w);
    match y
    case HandleStep(fate) =>
    case _ =>
  }

  lemma StepPassed(w: World, step: Step, id: string, floor: nat)
    requires Inv(w) && Passed(w.s, id, floor)
    ensures Passed(Next(w.s, step), id, floor)
  {
    hide Inv;
    match step
    case Statement(d) => StatementPassed(w, d, id, floor);
    case Relaying(r) => RelayingPassed(w, r, id, floor);
    case Estimating(e) => EstimatingPassed(w, e, id, floor);
    case Applying(y) => ApplyingPassed(w, y, id, floor);
    case _ =>
  }

  /** What has passed stays passed, whatever happens. */
  lemma {:induction false} PassedForGood(w: World, steps: seq<Step>, id: string, floor: nat)
    requires Inv(w) && Passed(w.s, id, floor)
    ensures Passed(WRun(w, steps).s, id, floor)
    decreases |steps|
  {
    hide Passed, Inv, Next, Observe;
    if steps != [] {
      var init := steps[..|steps| - 1];
      PassedForGood(w, init, id, floor);
      RunKeeps(w, init);
      StepPassed(WRun(w, init), steps[|steps| - 1], id, floor);
    }
  }

  /** The created content of the voyage has no price. */
  ghost predicate Unpriceable(s: State, id: string) {
    forall k :: k in s.db.outbox && s.db.outbox[k].payload.id == id ==>
      PriceOf(s.db.outbox[k].payload.content, s.rate).Err?
  }

  /** A stored voyage without an estimate that will never have one. */
  ghost predicate OutOfReach(s: State, id: string) {
    && id in s.db.voyages && s.db.voyages[id].estimate.None?
    && (Silenced(s, id) || Unpriceable(s, id) || Passed(s, id, s.logs.voyageCommitted))
  }

  /** And so it is, in every continuation. */
  lemma OutOfReachForGood(rate: Money, steps: seq<Step>, more: seq<Step>, id: string)
    requires OutOfReach(Run(Initial(rate), steps), id)
    ensures var rows := Run(Run(Initial(rate), steps), more).db.voyages; id in rows && rows[id].estimate.None?
  {
    var w := WRun(Start(rate), steps);
    ReachableInv(rate, steps);
    WRunState(w, more);
    if Silenced(w.s, id) {
      SilencedForGood(w, more, id);
    } else if Passed(w.s, id, w.s.logs.voyageCommitted) {
      PassedForGood(w, more, id, w.s.logs.voyageCommitted);
    } else {
      UnpriceableForGood(rate, steps, more, id);
    }
  }

  lemma UnpriceableForGood(rate: Money, steps: seq<Step>, more: seq<Step>, id: string)
    requires var s := Run(Initial(rate), steps); id in s.db.voyages && Unpriceable(s, id)
    ensures var rows := Run(Run(Initial(rate), steps), more).db.voyages; id in rows && rows[id].estimate.None?
  {
    hide Run, WRun, PriceOf, Inv, Unpriceable;
    var w, w' := WRun(Start(rate), steps), WRun(Start(rate), steps + more);
    ReachableInv(rate, steps);
    ReachableInv(rate, steps + more);
    RateIsFixed(Initial(rate), steps);
    RateIsFixed(Initial(rate), steps + more);
    RunConcat(Initial(rate), steps, more);
    WRunConcat(Start(rate), steps, more);
    RunAdvances(w, more);
    BirthUnpriceable(w, id);
    NoPriceNoEstimate(w', id);
  }

  lemma BirthUnpriceable(w: World, id: string)
    requires Inv(w) && id in w.s.db.voyages && Unpriceable(w.s, id)
    ensures id in w.h.born && BirthPrice(w.s.rate, w.h.born[id]) == None
  {
    hide PriceOf, Contents, Estimates, Topics, Relayed, DeadLetters, EstProgress, VoyProgress, AppliedOnce;
    assert w.h.born[id].outboxId in w.s.db.outbox;
  }

  lemma NoPriceNoEstimate(w: World, id: string)
    requires Inv(w) && id in w.h.born && BirthPrice(w.s.rate, w.h.born[id]) == None
    ensures id in w.s.db.voyages && w.s.db.voyages[id].estimate.None?
  {
    LedgerKeys(w);
    hide BirthPrice, Ledger, Contents, Topics, Relayed, DeadLetters, EstProgress, VoyProgress, AppliedOnce;
  }

  // ---- draining the relay --------------------------------------------------------------------------

  /** Healthy passes are a run. */
  lemma {:induction false} PassesRun(s: State, count: nat) returns (more: seq<Step>)
    requires s.relay == IDLE && IdsBelow(s.db)
    ensures var v := Passes(s.db, s.logs, count); Run(s, more) == s.(db := v.db, logs := v.logs)
  {
    hide Pass, Flushed, Next, IdsBelow;
    if count == 0 {
      more := [];
    } else {
      var init := PassesRun(s, count - 1);
      var v := Passes(s.db, s.logs, count - 1);
      var s1 := s.(db := v.db, logs := v.logs);
      FlushRefines(s1, Healthy());
      var last :| Run(s1, last) == s1.(db := Flushed(v.db, v.logs, Healthy()).db,
                                       logs := Flushed(v.db, v.logs, Healthy()).logs,
                                       relay := Flushed(v.db, v.logs, Healthy()).relay);
      PassesProgress(s.db, s.logs, count);
      RunConcat(s, init, last);
      more := init + last;
    }
  }

  /** What healthy passes leave: every row stamped, and those that were not are now in the topic anew. */
  ghost predicate RelayDone(s: State, s': State) {
    && s' == s.(db := s.db.(outbox := s'.db.outbox), logs := s.logs.(created := s'.logs.created))
    && s.logs.created <= s'.logs.created && s'.db.outbox.Keys == s.db.outbox.Keys
    && forall k :: k in s.db.outbox ==>
         && s'.db.outbox[k] == OutboxRow(s.db.outbox[k].payload, true)
         && (!s.db.outbox[k].published ==>
               Event(s.db.outbox[k].payload) in s'.logs.created[|s.logs.created|..])
  }

  lemma RelayDrains(s: State) returns (more: seq<Step>)
    requires s.relay == IDLE && IdsBelow(s.db)
    ensures RelayDone(s, Run(s, more))
  {
    var u := |Pending(s.db)|;
    more := PassesRun(s, u);
    PassesProgress(s.db, s.logs, u);
    PendingInOutbox(s.db);
    var ids := Pending(s.db);
    assert First(ids, BATCH * u) == ids;
    var s' := Run(s, more);
    hide Run, Pending, First, Rest, Passes;
    var added := Payloads(s.db.outbox, ids);
    assert s'.logs.created[|s.logs.created|..] == added;
    forall k | k in s.db.outbox
      ensures s'.db.outbox[k] == OutboxRow(s.db.outbox[k].payload, true)
      ensures !s.db.outbox[k].published ==> Event(s.db.outbox[k].payload) in added
    {
      if !s.db.outbox[k].published {
        assert k in ids;
        var i :| 0 <= i < |ids| && ids[i] == k;
        assert added[i] == Event(s.db.outbox[k].payload);
      }
    }
  }

  // ---- draining the estimator ----------------------------------------------------------------------

  function Repeated<F>(fate: F, n: nat): seq<F> { seq(n, _ => fate) }

  /** Every record from `c` on that has a price has its estimate among the records added. */
  ghost predicate PricedFrom(rate: Money, logs: Logs, logs': Logs, c: nat, n: nat)
    requires n <= |logs.created|
  {
    && logs.ready <= logs'.ready
    && logs' == logs.(ready := logs'.ready, createdDlq := logs'.createdDlq)
    && forall o :: c <= o < n && logs.created[o].Event? && PriceOf(logs.created[o].value.content, rate).Ok? ==>
         Event(BuildEstimateReady(logs.created[o].value, PriceOf(logs.created[o].value.content, rate).value))
         in logs'.ready[|logs.ready|..]
  }

  lemma PricedOne(rate: Money, logs: Logs, logs': Logs, c: nat, n: nat)
    requires n < |logs.created| && PricedFrom(rate, logs, logs', c, n)
    ensures var (logs'', succeeded) := EstEffect(rate, logs', logs.created[n], EstFate(true, Acked));
            succeeded && PricedFrom(rate, logs, logs'', c, n + 1)
  {
    hide PriceOf;
    var logs'' := EstEffect(rate, logs', logs.created[n], EstFate(true, Acked)).0;
    var added, added' := logs'.ready[|logs.ready|..], logs''.ready[|logs.ready|..];
    if logs''.ready != logs'.ready {
      var er := Event(BuildEstimateReady(logs.created[n].value, PriceOf(logs.created[n].value.content, rate).value));
      assert added' == added + [er];
    }
  }

  /** A healthy batch from the committed offset to the end of the topic, after `n` of its records. */
  lemma {:induction false} HealthyEstimator(rate: Money, logs: Logs, c: nat, n: nat)
    requires c <= |logs.created| && n <= |logs.created| - c
    ensures var v, fates := EstView(logs, Resume(c)), Repeated(EstFate(true, Acked), |logs.created| - c);
            var u := Batch(EstLoop(rate), v, fates, n);
            && PricedFrom(rate, logs, u.logs, c, c + n)
            && u.cur.next == c + n && u.cur.position == |logs.created|
            && |u.cur.committable| == n && (n > 0 ==> CommitOffset(u.cur) == c + n)
  {
    hide PricedFrom, EstEffect, Batch, EstNext;
    var v, fates := EstView(logs, Resume(c)), Repeated(EstFate(true, Acked), |logs.created| - c);
    if n == 0 {
      NothingPriced(rate, logs, c);
      BatchStarts(EstLoop(rate), v, fates);
      EstFetchesAll(rate, logs, c);
    } else {
      HealthyEstimator(rate, logs, c, n - 1);
      var u := Batch(EstLoop(rate), v, fates, n - 1);
      PricedKeeps(rate, logs, u.logs, c, c + n - 1);
      PricedOne(rate, logs, u.logs, c, c + n - 1);
      EstNextHandle(rate, u, EstFate(true, Acked));
      BatchGrows(EstLoop(rate), v, fates, n - 1);
    }
  }

  lemma EstFetchesAll(rate: Money, logs: Logs, c: nat)
    requires c <= |logs.created|
    ensures EstNext(rate, EstView(logs, Resume(c)), FetchStep(|logs.created| - c))
            == EstView(logs, Cursor(c, |logs.created|, []))
  {}

  lemma NothingPriced(rate: Money, logs: Logs, c: nat)
    requires c <= |logs.created|
    ensures PricedFrom(rate, logs, logs, c, c)
  {}

  lemma PricedKeeps(rate: Money, logs: Logs, logs': Logs, c: nat, n: nat)
    requires n <= |logs.created| && PricedFrom(rate, logs, logs', c, n)
    ensures logs'.created == logs.created
  {}

  /** What a healthy poll from the committed offset leaves. */
  ghost predicate EstimatorDone(s: State, s': State)
    requires s.logs.estimatorCommitted <= |s.logs.created|
  {
    && s' == s.(logs := s'.logs, est := s'.est)
    && s'.logs.estimatorCommitted == |s.logs.created|
    && PricedFrom(s.rate, s.logs, s'.logs.(estimatorCommitted := s.logs.estimatorCommitted),
                  s.logs.estimatorCommitted, |s.logs.created|)
  }

  lemma EstimatorDrains(s: State) returns (more: seq<Step>)
    requires s.est == Resume(s.logs.estimatorCommitted) && s.logs.estimatorCommitted <= |s.logs.created|
    ensures EstimatorDone(s, Run(s, more))
  {
    var c := s.logs.estimatorCommitted;
    var fates := Repeated(EstFate(true, Acked), |s.logs.created| - c);
    var poll, v := Poll(fates, true), EstView(s.logs, Resume(c));
    HealthyEstimator(s.rate, s.logs, c, |fates|);
    EstimatorLoopRefines(s, [poll]);
    LoopedConcat(EstLoop(s.rate), v, [], []);
    var u := Polled(EstLoop(s.rate), v, poll);
    more :| Run(s, more) == s.(logs := u.logs, est := u.cur);
    hide Run, Batch, PriceOf;
  }

  // ---- draining the voyage consumer ----------------------------------------------------------------

  /** Every estimate from `c` on whose version is the row's has been applied, or something else has. */
  ghost predicate AppliedFrom(voyages: map<string, Row>, voyages': map<string, Row>, log: seq<Record<EstimateReady>>,
                              c: nat, n: nat)
    requires n <= |log|
  {
    && voyages'.Keys == voyages.Keys
    && (forall id :: id in voyages ==>
          && voyages'[id].version == voyages[id].version && voyages'[id].content == voyages[id].content
          && (voyages[id].estimate.Some? ==> voyages'[id].estimate.Some?))
    && forall o :: c <= o < n && log[o].Event? && log[o].value.id in voyages
                   && voyages[log[o].value.id].version == log[o].value.version
                   ==> voyages'[log[o].value.id].estimate.Some?
  }

  lemma AppliedOne(voyages: map<string, Row>, voyages': map<string, Row>, logs: Logs, c: nat, n: nat)
    requires n < |logs.ready| && AppliedFrom(voyages, voyages', logs.ready, c, n)
    ensures var (voyages'', logs'', succeeded) := VoyEffect(voyages', logs, logs.ready[n], VoyFate(Acked, CallOk));
            && succeeded && AppliedFrom(voyages, voyages'', logs.ready, c, n + 1)
            && logs'' == logs.(readyDlq := logs''.readyDlq)
  {}

  lemma {:induction false} HealthyVoyage(voyages: map<string, Row>, logs: Logs, c: nat, n: nat)
    requires c <= |logs.ready| && n <= |logs.ready| - c
    ensures var v := VoyView(voyages, logs, Resume(c));
            var u := Batch(VoyLoop(), v, Repeated(VoyFate(Acked, CallOk), |logs.ready| - c), n);
            && AppliedFrom(voyages, u.voyages, logs.ready, c, c + n)
            && u.logs == logs.(readyDlq := u.logs.readyDlq)
            && u.cur.next == c + n && u.cur.position == |logs.ready|
            && |u.cur.committable| == n && (n > 0 ==> CommitOffset(u.cur) == c + n)
  {
    hide AppliedFrom, VoyEffect, Batch, VoyNext;
    var v, fates := VoyView(voyages, logs, Resume(c)), Repeated(VoyFate(Acked, CallOk), |logs.ready| - c);
    if n == 0 {
      NothingApplied(voyages, logs.ready, c);
      BatchStarts(VoyLoop(), v, fates);
      VoyFetchesAll(voyages, logs, c);
    } else {
      HealthyVoyage(voyages, logs, c, n - 1);
      var u := Batch(VoyLoop(), v, fates, n - 1);
      AppliedOne(voyages, u.voyages, u.logs, c, c + n - 1);
      VoyNextHandle(u, VoyFate(Acked, CallOk));
      BatchGrows(VoyLoop(), v, fates, n - 1);
    }
  }

  lemma VoyFetchesAll(voyages: map<string, Row>, logs: Logs, c: nat)
    requires c <= |logs.ready|
    ensures VoyNext(VoyView(voyages, logs, Resume(c)), FetchStep(|logs.ready| - c))
            == VoyView(voyages, logs, Cursor(c, |logs.ready|, []))
  {}

  lemma NothingApplied(voyages: map<string, Row>, log: seq<Record<EstimateReady>>, c: nat)
    requires c <= |log|
    ensures AppliedFrom(voyages, voyages, log, c, c)
  {}

  /** What a healthy poll from the committed offset leaves. */
  ghost predicate VoyageDone(s: State, s': State) {
    && s' == s.(db := s.db.(voyages := s'.db.voyages), logs := s'.logs, voy := s'.voy)
    && s'.logs == s.logs.(readyDlq := s'.logs.readyDlq, voyageCommitted := |s.logs.ready|)
    && AppliedFrom(s.db.voyages, s'.db.voyages, s.logs.ready, s.logs.voyageCommitted, |s.logs.ready|)
  }

  lemma VoyageDrains(s: State) returns (more: seq<Step>)
    requires s.voy == Resume(s.logs.voyageCommitted) && s.logs.voyageCommitted <= |s.logs.ready|
    ensures VoyageDone(s, Run(s, more))
  {
    var c := s.logs.voyageCommitted;
    var fates := Repeated(VoyFate(Acked, CallOk), |s.logs.ready| - c);
    var poll, v := Poll(fates, true), VoyView(s.db.voyages, s.logs, Resume(c));
    HealthyVoyage(s.db.voyages, s.logs, c, |fates|);
    VoyageLoopRefines(s, [poll]);
    LoopedConcat(VoyLoop(), v, [], []);
    var u := Polled(VoyLoop(), v, poll);
    more :| Run(s, more) == s.(db := s.db.(voyages := u.voyages), logs := u.logs, voy := u.cur);
    hide Run, Batch;
  }

  // ---- the whole continuation ----------------------------------------------------------------------

  /** The state after both services have been restarted. */
  function Restarted(s: State): State {
    s.(db := s.db.(inflight := map[]), relay := IDLE,
       voy := Resume(s.logs.voyageCommitted), est := Resume(s.logs.estimatorCommitted))
  }

  ghost predicate Stages(s: State, s2: State, s3: State, s4: State) {
    && RelayDone(Restarted(s), s2)
    && s2.logs.estimatorCommitted <= |s2.logs.created| && EstimatorDone(s2, s3)
    && VoyageDone(s3, s4)
  }

  lemma RestartRun(s: State)
    ensures Run(s, [VoyageServiceCrash, Estimating(RestartStep)]) == Restarted(s)
  {
    assert [VoyageServiceCrash, Estimating(RestartStep)][..1] == [VoyageServiceCrash];
    assert [VoyageServiceCrash][..0] == [];
  }

  lemma Bounds(rate: Money, steps: seq<Step>)
    ensures var s := Run(Initial(rate), steps);
            && s.logs.estimatorCommitted <= |s.logs.created| && s.logs.voyageCommitted <= |s.logs.ready|
            && IdsBelow(s.db)
  {
    ReachableInv(rate, steps);
    hide Run, WRun;
  }

  /** Restart, healthy passes, a healthy poll of each consumer. */
  lemma DrainStages(rate: Money, steps: seq<Step>)
    returns (to2: seq<Step>, to3: seq<Step>, to4: seq<Step>)
    ensures Stages(Run(Initial(rate), steps), Run(Initial(rate), steps + to2), Run(Initial(rate), steps + to3),
                   Run(Initial(rate), steps + to4))
  {
    hide Run, RelayDone, EstimatorDone, VoyageDone, IdsBelow;
    var start, restart := Initial(rate), [VoyageServiceCrash, Estimating(RestartStep)];
    var s := Run(start, steps);
    RestartRun(s);
    RunConcat(start, steps, restart);
    assert Run(start, steps + restart) == Restarted(s);
    Bounds(rate, steps + restart);
    var m2 := RelayDrains(Restarted(s));
    to2 := restart + m2;
    RunConcat(start, steps + restart, m2);
    assert steps + restart + m2 == steps + to2;
    var s2 := Run(start, steps + to2);
    RelayKeeps(Restarted(s), s2);
    Bounds(rate, steps + to2);
    var m3 := EstimatorDrains(s2);
    to3 := to2 + m3;
    RunConcat(start, steps + to2, m3);
    assert steps + to2 + m3 == steps + to3;
    var s3 := Run(start, steps + to3);
    EstimatorKeeps(s2, s3);
    Bounds(rate, steps + to3);
    var m4 := VoyageDrains(s3);
    to4 := to3 + m4;
    RunConcat(start, steps + to3, m4);
    assert steps + to3 + m4 == steps + to4;
  }

  lemma RelayKeeps(s: State, s': State)
    requires RelayDone(s, s')
    ensures s'.est == s.est && s'.voy == s.voy && s'.rate == s.rate && s'.db.voyages == s.db.voyages
    ensures s'.logs.estimatorCommitted == s.logs.estimatorCommitted
    ensures s'.logs.voyageCommitted == s.logs.voyageCommitted && s'.logs.ready == s.logs.ready
  {}

  lemma EstimatorKeeps(s: State, s': State)
    requires s.logs.estimatorCommitted <= |s.logs.created| && EstimatorDone(s, s')
    ensures s'.voy == s.voy && s'.rate == s.rate && s'.db == s.db
    ensures s'.logs.voyageCommitted == s.logs.voyageCommitted && s.logs.ready <= s'.logs.ready
    ensures s'.logs.created == s.logs.created
  {}

  lemma StagesDrain(s: State, s2: State, s3: State, s4: State)
    requires Stages(s, s2, s3, s4)
    ensures Drained(s4)
  {
    hide PricedFrom, AppliedFrom, PriceOf;
    RelayKeeps(Restarted(s), s2);
    EstimatorKeeps(s2, s3);
  }

  /** The relay's batch is strictly ascending and holds no stamped row. */
  ghost predicate BatchFresh(s: State) {
    && Ascending(s.relay.batch)
    && forall i :: 0 <= i < |s.relay.batch| && s.relay.batch[i] in s.db.outbox ==>
         !s.db.outbox[s.relay.batch[i]].published
  }

  lemma StepFresh(s: State, step: Step)
    requires BatchFresh(s)
    ensures BatchFresh(Next(s, step))
  {
    hide EstNext, VoyNext, Pending, First;
    match step
    case Statement(d) =>
    case Relaying(r) => RelayingFresh(s, r);
    case _ =>
  }

  lemma RelayingFresh(s: State, r: RelayStep)
    requires BatchFresh(s)
    ensures BatchFresh(Next(s, Relaying(r)))
  {
    match r
    case Select =>
      UnpublishedExact(s.db.outbox, 0, s.db.nextId);
      FirstOf(Pending(s.db), BATCH);
      assert forall i :: 0 <= i < |Pending(s.db)| ==> Pending(s.db)[i] in Pending(s.db);
    case Publish(fate) =>
    case Mark(fault) =>
  }

  lemma {:induction false} RunFresh(s: State, steps: seq<Step>)
    requires BatchFresh(s)
    ensures BatchFresh(Run(s, steps))
    decreases |steps|
  {
    hide BatchFresh, Next;
    if steps != [] {
      RunFresh(s, steps[..|steps| - 1]);
      StepFresh(Run(s, steps[..|steps| - 1]), steps[|steps| - 1]);
    }
  }

  /** What a voyage within reach has got: an unstamped row, or an event still to be handled. */
  lemma WithinReach(rate: Money, steps: seq<Step>, id: string)
    requires var s := Run(Initial(rate), steps);
             id in s.db.voyages && s.db.voyages[id].estimate.None? && !OutOfReach(s, id)
    ensures var s := Run(Initial(rate), steps);
            && s.db.voyages[id].version == 1
            && (exists k :: k in s.db.outbox && s.db.outbox[k].payload.id == id
                            && PriceOf(s.db.outbox[k].payload.content, s.rate).Ok?)
            && (|| (exists k :: k in s.db.outbox && s.db.outbox[k].payload.id == id && !s.db.outbox[k].published)
                || (exists i :: s.logs.estimatorCommitted <= i < |s.logs.created| && !NotOf(s.logs.created[i], id))
                || (exists i :: s.logs.voyageCommitted <= i < |s.logs.ready| && !NotFor(s.logs.ready[i], id)))
  {
    RunFresh(Initial(rate), steps);
    VersionOfStored(rate, steps, id);
    hide Run, PriceOf;
  }

  lemma ReadyAtOne(rate: Money, steps: seq<Step>)
    ensures var ready := Run(Initial(rate), steps).logs.ready;
            forall i :: 0 <= i < |ready| && ready[i].Event? ==> ready[i].value.version == 1
  {
    ReachableInv(rate, steps);
    hide Run, WRun, BirthPrice;
    var w := WRun(Start(rate), steps);
    assert Topics(w.s.rate, w.s.logs, w.h.born);
  }

  /** From an estimate still to be handled. */
  lemma ReadyReaches(s: State, s': State, id: string, i: nat)
    requires VoyageDone(s, s') && id in s.db.voyages && s.db.voyages[id].version == 1
    requires s.logs.voyageCommitted <= i < |s.logs.ready| && !NotFor(s.logs.ready[i], id)
    requires s.logs.ready[i].value.version == 1
    ensures id in s'.db.voyages && s'.db.voyages[id].estimate.Some?
  {}

  /** From an event still to be handled. */
  lemma CreatedReaches(s: State, s': State, id: string, o: nat) returns (i: nat)
    requires s.logs.estimatorCommitted <= o < |s.logs.created| && EstimatorDone(s, s')
    requires !NotOf(s.logs.created[o], id) && PriceOf(s.logs.created[o].value.content, s.rate).Ok?
    ensures |s.logs.ready| <= i < |s'.logs.ready| && !NotFor(s'.logs.ready[i], id)
  {
    hide PriceOf;
    var vc := s.logs.created[o].value;
    var er := Event(BuildEstimateReady(vc, PriceOf(vc.content, s.rate).value));
    var added := s'.logs.ready[|s.logs.ready|..];
    assert er in added;
    var j :| 0 <= j < |added| && added[j] == er;
    i := |s.logs.ready| + j;
  }

  /** The events of a voyage carry what its outbox row carries. */
  lemma EventContent(rate: Money, steps: seq<Step>, id: string, k: nat, o: nat)
    requires var s := Run(Initial(rate), steps);
             && k in s.db.outbox && s.db.outbox[k].payload.id == id
             && o < |s.logs.created| && !NotOf(s.logs.created[o], id)
    ensures var s := Run(Initial(rate), steps); s.logs.created[o].value == s.db.outbox[k].payload
  {
    OutboxConservation(rate, steps);
    hide Run;
  }

  /** The continuation brings the estimate of every voyage within reach. */
  lemma StagesReach(rate: Money, steps: seq<Step>, to2: seq<Step>, to3: seq<Step>, s4: State, id: string)
    requires Stages(Run(Initial(rate), steps), Run(Initial(rate), steps + to2), Run(Initial(rate), steps + to3), s4)
    requires id in Run(Initial(rate), steps).db.voyages && !OutOfReach(Run(Initial(rate), steps), id)
    ensures id in s4.db.voyages && s4.db.voyages[id].estimate.Some?
  {
    hide Run, OutOfReach, RelayDone, EstimatorDone, NotOf, NotFor, PriceOf;
    var s, s2, s3 := Run(Initial(rate), steps), Run(Initial(rate), steps + to2), Run(Initial(rate), steps + to3);
    RelayKeeps(Restarted(s), s2);
    EstimatorKeeps(s2, s3);
    Bounds(rate, steps + to2);
    if s.db.voyages[id].estimate.None? {
      hide VoyageDone;
      WithinReach(rate, steps, id);
      var k :| k in s.db.outbox && s.db.outbox[k].payload.id == id
               && PriceOf(s.db.outbox[k].payload.content, s.rate).Ok?;
      ReadyAtOne(rate, steps + to3);
      if i :| s.logs.voyageCommitted <= i < |s.logs.ready| && !NotFor(s.logs.ready[i], id) {
        assert s3.logs.ready[i] == s.logs.ready[i];
        IsFor(s3.logs.ready[i], id);
        ReadyReaches(s3, s4, id, i);
      } else {
        var o := EventAhead(rate, steps, s2, id, k);
        OutboxKept(Restarted(s), s2, k);
        EventContent(rate, steps + to2, id, k, o);
        var i := CreatedReaches(s2, s3, id, o);
        IsFor(s3.logs.ready[i], id);
        ReadyReaches(s3, s4, id, i);
      }
    }
  }

  lemma IsFor(r: Record<EstimateReady>, id: string)
    requires !NotFor(r, id)
    ensures r.Event?
  {}

  lemma OutboxKept(s: State, s': State, k: nat)
    requires RelayDone(s, s') && k in s.db.outbox
    ensures k in s'.db.outbox && s'.db.outbox[k].payload == s.db.outbox[k].payload
  {}

  /** After the passes an event of the voyage is at or above the estimator's committed offset, if one was or an
      unstamped row was. */
  lemma EventAhead(rate: Money, steps: seq<Step>, s2: State, id: string, k: nat) returns (o: nat)
    requires var s := Run(Initial(rate), steps);
             && RelayDone(Restarted(s), s2)
             && (|| (exists j :: j in s.db.outbox && s.db.outbox[j].payload.id == id && !s.db.outbox[j].published)
                 || (exists i :: s.logs.estimatorCommitted <= i < |s.logs.created| && !NotOf(s.logs.created[i], id)))
    ensures s2.logs.estimatorCommitted <= o < |s2.logs.created| && !NotOf(s2.logs.created[o], id)
  {
    Bounds(rate, steps);
    var s := Run(Initial(rate), steps);
    hide Run;
    if i :| s.logs.estimatorCommitted <= i < |s.logs.created| && !NotOf(s.logs.created[i], id) {
      o := i;
      assert s2.logs.created[i] == s.logs.created[i];
    } else {
      var j :| j in s.db.outbox && s.db.outbox[j].payload.id == id && !s.db.outbox[j].published;
      var added := s2.logs.created[|s.logs.created|..];
      assert Event(s.db.outbox[j].payload) in added;
      var i :| 0 <= i < |added| && added[i] == Event(s.db.outbox[j].payload);
      o := |s.logs.created| + i;
      assert s2.logs.created[o] == added[i];
    }
  }

  /** Every reachable state can be drained by a restart, healthy passes and healthy polls, and that gives an
      estimate to exactly the voyages within reach. */
  lemma DrainReaches(rate: Money, steps: seq<Step>) returns (more: seq<Step>)
    ensures var s, s' := Run(Initial(rate), steps), Run(Initial(rate), steps + more);
            && Drained(s')
            && forall id :: id in s.db.voyages ==>
                 id in s'.db.voyages && (s'.db.voyages[id].estimate.Some? <==> !OutOfReach(s, id))
  {
    var to2, to3, to4 := DrainStages(rate, steps);
    more := to4;
    var s, s' := Run(Initial(rate), steps), Run(Initial(rate), steps + to4);
    StagesDrain(s, Run(Initial(rate), steps + to2), Run(Initial(rate), steps + to3), s');
    RunConcat(Initial(rate), steps, to4);
    hide Run, OutOfReach, Stages, Drained;
    forall id | id in s.db.voyages
      ensures id in s'.db.voyages && (s'.db.voyages[id].estimate.Some? <==> !OutOfReach(s, id))
    {
      if OutOfReach(s, id) {
        OutOfReachForGood(rate, steps, to4, id);
      } else {
        StagesReach(rate, steps, to2, to3, s', id);
      }
    }
  }

  /** When a stored voyage can still come to show an estimate. */
  lemma EstimateCanArriveExact(rate: Money, steps: seq<Step>, id: string)
    requires id in Run(Initial(rate), steps).db.voyages
    ensures (exists more :: var rows := Run(Initial(rate), steps + more).db.voyages;
                            id in rows && rows[id].estimate.Some?)
            <==> !OutOfReach(Run(Initial(rate), steps), id)
  {
    hide Run, OutOfReach, Drained;
    var drain := DrainReaches(rate, steps);
    if OutOfReach(Run(Initial(rate), steps), id) {
      forall more
        ensures var rows := Run(Initial(rate), steps + more).db.voyages; id in rows && rows[id].estimate.None?
      {
        RunConcat(Initial(rate), steps, more);
        OutOfReachForGood(rate, steps, more, id);
      }
    }
  }

  /** Where both committed offsets are complete, no voyage has passed: only a missing price or an earlier update
      puts an estimate out of reach. */
  lemma CompleteIsWithinReach(rate: Money, steps: seq<Step>, id: string)
    requires EstComplete(WRun(Start(rate), steps)) && VoyComplete(WRun(Start(rate), steps))
    requires id in Run(Initial(rate), steps).db.voyages
    ensures var s := Run(Initial(rate), steps);
            OutOfReach(s, id) <==> s.db.voyages[id].estimate.None? && (Silenced(s, id) || Unpriceable(s, id))
  {
    var w := WRun(Start(rate), steps);
    ReachableInv(rate, steps);
    VersionsFromOne(w, id);
    if Passed(w.s, id, w.s.logs.voyageCommitted) && !Unpriceable(w.s, id) {
      PassedIsSilenced(w, id);
    }
    hide Run, WRun, Inv;
  }

  /** So the code keeps its promise of redelivery: from every state a guarded run reaches, a restart followed by
      healthy passes and polls drains the pipeline and gives an estimate to every voyage that has none, unless an
      update came first or its price does not exist. */
  lemma GuardedRunsRecover(rate: Money, steps: seq<Step>) returns (more: seq<Step>)
    requires EstGuarded(Start(rate), steps) && VoyGuarded(Start(rate), steps)
    ensures var s, s' := Run(Initial(rate), steps), Run(Initial(rate), steps + more);
            && Drained(s')
            && forall id :: id in s.db.voyages ==>
                 && id in s'.db.voyages
                 && (s'.db.voyages[id].estimate.Some? <==>
                     s.db.voyages[id].estimate.Some? || (!Overtaken(rate, steps, id) && !Unpriceable(s, id)))
  {
    hide Run, OutOfReach, Drained, Silenced, Unpriceable;
    StartInv(rate);
    EstRunExact(Start(rate), steps);
    VoyRunExact(Start(rate), steps);
    more := DrainReaches(rate, steps);
    var s := Run(Initial(rate), steps);
    forall id | id in s.db.voyages
      ensures OutOfReach(s, id) <==>
              s.db.voyages[id].estimate.None? && (Overtaken(rate, steps, id) || Unpriceable(s, id))
    {
      CompleteIsWithinReach(rate, steps, id);
      SilencedExact(rate, steps, id);
    }
  }

  lemma PassedIsSilenced(w: World, id: string)
    requires Inv(w) && EstComplete(w) && VoyComplete(w)
    requires Passed(w.s, id, w.s.logs.voyageCommitted) && !Unpriceable(w.s, id)
    ensures Silenced(w.s, id)
  {
    hide PriceOf, Contents, Estimates, DeadLetters, AppliedOnce;
    var s := w.s;
    var k :| k in s.db.outbox && s.db.outbox[k].payload.id == id
             && PriceOf(s.db.outbox[k].payload.content, s.rate).Ok?;
    var vc := s.db.outbox[k].payload;
    assert vc.version == 1 && Event(vc) in s.logs.created;
    hide Ledger, Relayed;
    var o :| 0 <= o < |s.logs.created| && s.logs.created[o] == Event(vc);
    assert NotOf(s.logs.created[o], id) ==> false;
    assert o in w.h.est.done && Priced(s.rate, s.logs, s.logs.created[o]);
    var er := BuildEstimateReady(vc, PriceOf(vc.content, s.rate).value);
    var i :| 0 <= i < |s.logs.ready| && s.logs.ready[i] == Event(er);
    assert !NotFor(s.logs.ready[i], id);
    assert i in w.h.voy.done && Settled(s.db.voyages, s.logs.ready[i]);
  }
}
