/** When a committed offset means that the work below it is done. A batch collects only the records
    that succeeded, and a commit stores one position, so it can pass a record whose handling failed.
    The guard below is what would have to be checked before each commit. It is exact for completeness, that
    every offset below was at some time handled with success, which is what the theorems about the records
    rest on; a record that failed may still be in order, when only an acknowledgement was lost. */
module CommitDiscipline {
  import opened Int64
  import opened Wrappers
  import opened Voyages
  import opened Money
  import opened Storage
  import opened Broker
  import opened Polling
  import opened Pipeline
  import opened Invariants
  import opened PipelineTheorems

  /** Every offset below the committed one has at some time been handled with success. */
  ghost predicate Complete(committed: nat, v: Verdicts) {
    forall o :: 0 <= o < committed ==> o in v.done
  }

  /** The batch about to be committed passes no offset that failed since the last restart and has
      not succeeded at another time. */
  ghost predicate Guard(cur: Cursor, v: Verdicts) {
    cur.committable != [] ==> forall o :: o in v.failed && o < CommitOffset(cur) ==> o in v.done
  }

  /** What a member can check, knowing only its own session: the commit passes none of its failures. */
  ghost predicate Unpassed(cur: Cursor, v: Verdicts) {
    cur.committable != [] ==> forall o :: o in v.failed ==> o >= CommitOffset(cur)
  }

  ghost predicate EstGuard(w: World, step: Step) {
    step == Estimating(CommitStep(true)) && w.s.est.next == w.s.est.position ==> Guard(w.s.est, w.h.est)
  }

  ghost predicate VoyGuard(w: World, step: Step) {
    step == Applying(CommitStep(true)) && w.s.voy.next == w.s.voy.position ==> Guard(w.s.voy, w.h.voy)
  }

  /** A stored commit keeps completeness exactly when its guard holds. */
  lemma CommitExact(cur: Cursor, committed: nat, end: nat, v: Verdicts)
    requires Tracks(cur, committed, end, v) && cur.committable != []
    requires Complete(committed, v)
    ensures Complete(CommitOffset(cur), v) <==> Guard(cur, v)
  {
    if Guard(cur, v) {
      forall o | 0 <= o < CommitOffset(cur)
        ensures o in v.done
      {
        if o >= committed {
          assert o in v.done || o in v.failed;
        }
      }
    }
  }

  lemma EstStepExact(w: World, step: Step)
    requires Inv(w) && Complete(w.s.logs.estimatorCommitted, w.h.est)
    ensures Complete(WNext(w, step).s.logs.estimatorCommitted, WNext(w, step).h.est) <==> EstGuard(w, step)
  {
    var s := w.s;
    if step == Estimating(CommitStep(true)) && s.est.next == s.est.position && s.est.committable != [] {
      CommitExact(s.est, s.logs.estimatorCommitted, |s.logs.created|, w.h.est);
    } else {
      hide Inv;
      OffsetsKept(w, step);
    }
  }

  lemma VoyStepExact(w: World, step: Step)
    requires Inv(w) && Complete(w.s.logs.voyageCommitted, w.h.voy)
    ensures Complete(WNext(w, step).s.logs.voyageCommitted, WNext(w, step).h.voy) <==> VoyGuard(w, step)
  {
    var s := w.s;
    if step == Applying(CommitStep(true)) && s.voy.next == s.voy.position && s.voy.committable != [] {
      CommitExact(s.voy, s.logs.voyageCommitted, |s.logs.ready|, w.h.voy);
    } else {
      hide Inv;
      OffsetsKept(w, step);
    }
  }

  /** Only a stored commit moves an offset, and a success once recorded stays recorded. */
  lemma OffsetsKept(w: World, step: Step)
    ensures w.h.est.done <= WNext(w, step).h.est.done
    ensures w.h.voy.done <= WNext(w, step).h.voy.done
    ensures step != Estimating(CommitStep(true)) || w.s.est.next != w.s.est.position || w.s.est.committable == []
            ==> WNext(w, step).s.logs.estimatorCommitted == w.s.logs.estimatorCommitted
    ensures step != Applying(CommitStep(true)) || w.s.voy.next != w.s.voy.position || w.s.voy.committable == []
            ==> WNext(w, step).s.logs.voyageCommitted == w.s.logs.voyageCommitted
  {
    hide PriceOf, DbNext, Upsert, ObserveBirth, AppliedTo;
    match step
    case Statement(_) =>
    case Relaying(_) =>
    case Estimating(e) =>
    case Applying(y) =>
    case _ =>
  }

  ghost predicate EstComplete(w: World) { Complete(w.s.logs.estimatorCommitted, w.h.est) }

  ghost predicate VoyComplete(w: World) { Complete(w.s.logs.voyageCommitted, w.h.voy) }

  /** The estimator's offset is complete after every prefix of the run. */
  ghost predicate EstAlwaysComplete(w: World, steps: seq<Step>)
    decreases |steps|
  {
    EstComplete(WRun(w, steps)) && (steps != [] ==> EstAlwaysComplete(w, steps[..|steps| - 1]))
  }

  /** Every commit the estimator stores in the run is guarded. */
  ghost predicate EstGuarded(w: World, steps: seq<Step>)
    decreases |steps|
  {
    steps != [] ==>
      EstGuarded(w, steps[..|steps| - 1]) && EstGuard(WRun(w, steps[..|steps| - 1]), steps[|steps| - 1])
  }

  ghost predicate VoyAlwaysComplete(w: World, steps: seq<Step>)
    decreases |steps|
  {
    VoyComplete(WRun(w, steps)) && (steps != [] ==> VoyAlwaysComplete(w, steps[..|steps| - 1]))
  }

  ghost predicate VoyGuarded(w: World, steps: seq<Step>)
    decreases |steps|
  {
    steps != [] ==>
      VoyGuarded(w, steps[..|steps| - 1]) && VoyGuard(WRun(w, steps[..|steps| - 1]), steps[|steps| - 1])
  }

  /** Along a run the estimator's offset stays complete exactly when every commit is guarded. */
  lemma {:induction false} EstRunExact(w: World, steps: seq<Step>)
    requires Inv(w) && EstComplete(w)
    ensures EstAlwaysComplete(w, steps) <==> EstGuarded(w, steps)
    decreases |steps|
  {
    if steps != [] {
      var init := steps[..|steps| - 1];
      EstRunExact(w, init);
      RunKeeps(w, init);
      hide Inv, WNext, EstGuard;
      if EstAlwaysComplete(w, init) {
        assert EstComplete(WRun(w, init));
        EstStepExact(WRun(w, init), steps[|steps| - 1]);
      }
    }
  }

  /** The same for the voyage consumer. */
  lemma {:induction false} VoyRunExact(w: World, steps: seq<Step>)
    requires Inv(w) && VoyComplete(w)
    ensures VoyAlwaysComplete(w, steps) <==> VoyGuarded(w, steps)
    decreases |steps|
  {
    if steps != [] {
      var init := steps[..|steps| - 1];
      VoyRunExact(w, init);
      RunKeeps(w, init);
      hide Inv, WNext, VoyGuard;
      if VoyAlwaysComplete(w, init) {
        assert VoyComplete(WRun(w, init));
        VoyStepExact(WRun(w, init), steps[|steps| - 1]);
      }
    }
  }

  /** Every commit the two consumers store in the run passes no failure of the same session. */
  ghost predicate Cautious(w: World, steps: seq<Step>)
    decreases |steps|
  {
    steps != [] ==>
      var u := WRun(w, steps[..|steps| - 1]);
      && Cautious(w, steps[..|steps| - 1])
      && (steps[|steps| - 1] == Estimating(CommitStep(true)) && u.s.est.next == u.s.est.position ==>
            Unpassed(u.s.est, u.h.est))
      && (steps[|steps| - 1] == Applying(CommitStep(true)) && u.s.voy.next == u.s.voy.position ==>
            Unpassed(u.s.voy, u.h.voy))
  }

  /** What a member can check is enough: then every commit is guarded. */
  lemma {:induction false} CautiousIsGuarded(w: World, steps: seq<Step>)
    requires Cautious(w, steps)
    ensures EstGuarded(w, steps) && VoyGuarded(w, steps)
    decreases |steps|
  {
    hide WNext;
    if steps != [] {
      CautiousIsGuarded(w, steps[..|steps| - 1]);
    }
  }

  // ---- what completeness buys --------------------------------------------------------------------

  /** A created voyage whose price does not fit: the only records the estimator may drop for good,
      as long as its rate is a positive USD amount. */
  predicate Overflows(rate: Money, c: Content) {
    !Fits(rate.minor * c.distanceNm) || !Fits(Cost(rate, c))
  }

  lemma UnpriceableOverflows(rate: Money, c: Content)
    requires rate.minor > 0 && rate.currency == USD && c.distanceNm >= 0
    ensures PriceOf(c, rate).Err? <==> Overflows(rate, c)
    ensures PriceOf(c, rate).Ok? ==> PriceOf(c, rate).value == FromUSD(Cost(rate, c))
  {
    PriceExact(rate, c);
  }

  /** What a success of the estimator means for the record. */
  lemma DoneIsPriced(w: World, o: nat)
    requires Inv(w) && w.s.rate.minor > 0 && w.s.rate.currency == USD && o in w.h.est.done
    ensures o < |w.s.logs.created|
    ensures w.s.logs.created[o].Event? ==>
              var vc := w.s.logs.created[o].value;
              || Overflows(w.s.rate, vc.content)
              || Event(EstimateReady(vc.id, 1, Cost(w.s.rate, vc.content), USD)) in w.s.logs.ready
  {
    if w.s.logs.created[o].Event? {
      var vc := w.s.logs.created[o].value;
      assert KnownVoyage(w.h.born, vc) && Priced(w.s.rate, w.s.logs, w.s.logs.created[o]);
      UnpriceableOverflows(w.s.rate, vc.content);
      hide PriceOf, Cost, Overflows;
    }
  }

  /** In a guarded run every voyage.created record below the estimator's committed offset is
      undecodable, overflows, or has its exact estimate in estimate.ready; a negative distance cannot
      be among them. */
  lemma CommittedCreatedRecords(rate: Money, steps: seq<Step>, o: nat)
    requires rate.minor > 0 && rate.currency == USD
    requires EstGuarded(Start(rate), steps)
    requires var s := Run(Initial(rate), steps); o < s.logs.estimatorCommitted
    ensures var s := Run(Initial(rate), steps);
            && o < |s.logs.created|
            && (s.logs.created[o].Event? ==>
                  var vc := s.logs.created[o].value;
                  || Overflows(rate, vc.content)
                  || Event(EstimateReady(vc.id, 1, Cost(rate, vc.content), USD)) in s.logs.ready)
  {
    ReachableInv(rate, steps);
    StartInv(rate);
    EstRunExact(Start(rate), steps);
    var w := WRun(Start(rate), steps);
    RateIsFixed(Initial(rate), steps);
    assert EstComplete(w);
    DoneIsPriced(w, o);
    hide Inv, Run, WRun, Cost, Overflows;
  }

  /** In a guarded run every estimate.ready record below the voyage consumer's committed offset is
      undecodable, or its voyage shows the amount, or its voyage has moved past version 1. */
  lemma CommittedReadyRecords(rate: Money, steps: seq<Step>, o: nat)
    requires VoyGuarded(Start(rate), steps)
    requires var s := Run(Initial(rate), steps); o < s.logs.voyageCommitted
    ensures var s := Run(Initial(rate), steps);
            && o < |s.logs.ready|
            && (s.logs.ready[o].Event? ==>
                  var er := s.logs.ready[o].value;
                  && er.id in s.db.voyages
                  && (s.db.voyages[er.id].version > 1 || s.db.voyages[er.id].estimate == Some(er.amountMinor)))
  {
    ReachableInv(rate, steps);
    StartInv(rate);
    VoyRunExact(Start(rate), steps);
    var w := WRun(Start(rate), steps);
    assert VoyComplete(w);
    if w.s.logs.ready[o].Event? {
      assert KnownEstimate(w.s.rate, w.h.born, w.s.logs.ready[o].value) && Settled(w.s.db.voyages, w.s.logs.ready[o]);
    }
  }

  /** Nothing is left to do: every outbox row is stamped and both groups have committed to the end. */
  ghost predicate Drained(s: State) {
    && (forall k :: k in s.db.outbox ==> s.db.outbox[k].published)
    && s.logs.estimatorCommitted == |s.logs.created|
    && s.logs.voyageCommitted == |s.logs.ready|
  }

  /** What a drained guarded run leaves of a voyage whose price fits. */
  lemma DrainedEstimate(rate: Money, steps: seq<Step>, k: nat)
    requires rate.minor > 0 && rate.currency == USD
    requires EstGuarded(Start(rate), steps) && VoyGuarded(Start(rate), steps)
    requires Drained(Run(Initial(rate), steps)) && k in Run(Initial(rate), steps).db.outbox
    ensures var s := Run(Initial(rate), steps);
            var created := s.db.outbox[k].payload;
            && created.id in s.db.voyages
            && (Overflows(rate, created.content)
                || s.db.voyages[created.id].version > 1
                || s.db.voyages[created.id].estimate == Some(Cost(rate, created.content)))
  {
    ReachableInv(rate, steps);
    var w := WRun(Start(rate), steps);
    var s := w.s;
    var vc := s.db.outbox[k].payload;
    assert vc.version == 1 && vc.id in s.db.voyages && Event(vc) in s.logs.created;
    hide Inv, Run, WRun;
    var o :| 0 <= o < |s.logs.created| && s.logs.created[o] == Event(vc);
    CommittedCreatedRecords(rate, steps, o);
    if !Overflows(rate, vc.content) {
      var er := EstimateReady(vc.id, 1, Cost(rate, vc.content), USD);
      hide Cost, Overflows;
      var o' :| 0 <= o' < |s.logs.ready| && s.logs.ready[o'] == Event(er);
      CommittedReadyRecords(rate, steps, o');
    }
  }

  /** No estimate is lost end to end: when a guarded run has drained, a voyage has the exact estimate of the
      content it was created with exactly if that price fits and no update came before it was applied. */
  lemma DrainedPipelineIsComplete(rate: Money, steps: seq<Step>, k: nat)
    requires rate.minor > 0 && rate.currency == USD
    requires EstGuarded(Start(rate), steps) && VoyGuarded(Start(rate), steps)
    requires Drained(Run(Initial(rate), steps)) && k in Run(Initial(rate), steps).db.outbox
    ensures var s := Run(Initial(rate), steps);
            var created := s.db.outbox[k].payload;
            && created.id in s.db.voyages
            && (s.db.voyages[created.id].estimate == Some(Cost(rate, created.content)) <==>
                !Overflows(rate, created.content) && !Overtaken(rate, steps, created.id))
  {
    hide Run, EstGuarded, VoyGuarded, Drained, Overtaken;
    DrainedEstimate(rate, steps, k);
    EstimateIsExact(rate, steps, k);
    OutboxConservation(rate, steps);
    var created := Run(Initial(rate), steps).db.outbox[k].payload;
    SilencedExact(rate, steps, created.id);
    VersionOfStored(rate, steps, created.id);
    PriceNoOverflow(rate, created.content);
  }

  lemma VersionOfStored(rate: Money, steps: seq<Step>, id: string)
    requires id in Run(Initial(rate), steps).db.voyages
    ensures Run(Initial(rate), steps).db.voyages[id].version >= 1
  {
    ReachableInv(rate, steps);
    VersionsFromOne(WRun(Start(rate), steps), id);
    hide Run, WRun;
  }

  lemma PriceNoOverflow(rate: Money, c: Content)
    ensures HasPrice(rate, c) ==> !Overflows(rate, c)
  {}
}
