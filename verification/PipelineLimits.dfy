/** Concrete runs on which plausible stronger claims about the pipeline fail. */
module PipelineLimits {
  import opened Wrappers
  import opened Voyages
  import opened Money
  import opened Storage
  import opened Broker
  import opened OutboxRelay
  import opened Polling
  import opened EstimatorConsumer
  import opened EstimateConsumer
  import opened Pipeline
  import opened Invariants
  import opened PipelineTheorems
  import opened CommitDiscipline
  import opened Recovery
  import opened Server

  const RATE := FromUSD(100)
  const FIRST := Content("NLRTM", "SGSIN", 10, 5)
  const EDITED := Content("NLRTM", "SGSIN", 20, 5)
  const CREATED := Voyage("v", FIRST, 0, 0)
  const EDIT := Voyage("v", EDITED, 2, 0)

  lemma RunSnoc(s: State, steps: seq<Step>, step: Step)
    ensures Run(s, steps + [step]) == Next(Run(s, steps), step)
  {
    assert (steps + [step])[..|steps|] == steps;
  }

  /** A voyage is created. */
  lemma Created() returns (steps: seq<Step>, s: State)
    ensures s == Run(Initial(RATE), steps)
    ensures var row := OutboxRow(VoyageCreated("v", FIRST, 1), false);
            s == Initial(RATE).(db := Db(map["v" := Row(FIRST, 1, None)], map[], map[0 := row], 1))
  {
    var create := [InsertVoyage(CREATED), InsertOutbox("v"), Commit("v")];
    steps := Statements(create);
    StatementsRun(Initial(RATE), create);
    CommittedRun(EMPTY_DB, CREATED);
    s := Run(Initial(RATE), steps);
    hide Run, DbRun;
  }

  /** Its outbox row is published and stamped. */
  lemma Published() returns (steps: seq<Step>, s: State)
    ensures s == Run(Initial(RATE), steps)
    ensures s.db.voyages == map["v" := Row(FIRST, 1, None)] && s.db.inflight == map[]
    ensures s.db.outbox == map[0 := OutboxRow(VoyageCreated("v", FIRST, 1), true)] && s.relay == IDLE
    ensures s.logs == EMPTY_LOGS.(created := [Event(VoyageCreated("v", FIRST, 1))])
    ensures s.rate == RATE && s.est == Resume(0) && s.voy == Resume(0)
  {
    hide Run;
    var s0 := Initial(RATE);
    var t0, s1 := Created();
    var t1 := t0 + [Relaying(Select)];
    RunSnoc(s0, t0, Relaying(Select));
    assert Unpublished(s1.db.outbox, 1, 1) == [];
    assert Pending(s1.db) == [0];
    hide Pending, Unpublished;
    var s2 := s1.(relay := Relay([0], false));
    assert Run(s0, t1) == s2;
    var t2 := t1 + [Relaying(Publish(Acked))];
    RunSnoc(s0, t1, Relaying(Publish(Acked)));
    var s3 := Next(s2, Relaying(Publish(Acked)));
    assert Run(s0, t2) == s3 && s3.relay == Relay([0], true);
    steps := t2 + [Relaying(Mark(CallOk))];
    RunSnoc(s0, t2, Relaying(Mark(CallOk)));
    s := Next(s3, Relaying(Mark(CallOk)));
  }

  lemma Prices()
    ensures PriceOf(FIRST, RATE) == Ok(FromUSD(1005)) && PriceOf(EDITED, RATE) == Ok(FromUSD(2005))
  {
    Estimate.EstimateCostExact(10, FromUSD(5), RATE);
    Estimate.EstimateCostExact(20, FromUSD(5), RATE);
  }

  /** The estimator fails on the voyage's record, succeeds on the undecodable one after it, and commits. */
  lemma CommitPasses() returns (steps: seq<Step>, s: State)
    ensures s == Run(Initial(RATE), steps)
    ensures s.db.voyages == map["v" := Row(FIRST, 1, None)]
    ensures s.db.outbox == map[0 := OutboxRow(VoyageCreated("v", FIRST, 1), true)] && s.relay == IDLE
    ensures s.logs.created == [Event(VoyageCreated("v", FIRST, 1)), Garbage(7)] && s.logs.estimatorCommitted == 2
    ensures s.logs.ready == [] && s.logs.voyageCommitted == 0
  {
    var t0, s0 := Published();
    Prices();
    hide PriceOf;
    var start := Initial(RATE);
    var t1 := t0 + [PolluteCreated(7)];
    RunSnoc(start, t0, PolluteCreated(7));
    var t2 := t1 + [Estimating(FetchStep(2))];
    RunSnoc(start, t1, Estimating(FetchStep(2)));
    assert Run(start, t2).est == Cursor(0, 2, []);
    var t3 := t2 + [Estimating(HandleStep(EstFate(true, Lost)))];
    RunSnoc(start, t2, Estimating(HandleStep(EstFate(true, Lost))));
    assert Run(start, t3).est == Cursor(1, 2, []);
    var t4 := t3 + [Estimating(HandleStep(EstFate(true, Acked)))];
    RunSnoc(start, t3, Estimating(HandleStep(EstFate(true, Acked))));
    assert Run(start, t4).est == Cursor(2, 2, [1]);
    steps := t4 + [Estimating(CommitStep(true))];
    RunSnoc(start, t4, Estimating(CommitStep(true)));
    s := Run(start, steps);
  }

  /** A commit can pass a failed record, and then the estimate is lost for good: with every outbox row stamped
      and both groups committed to the end of their topics, a priceable voyage has no estimate, and in every
      continuation it has passed: there is no estimate of it in the topic or in its row. */
  lemma EstimateCanBeLost()
    ensures exists steps :: var s := Run(Initial(RATE), steps);
              && "v" in s.db.voyages && s.db.voyages["v"].content == FIRST && PriceOf(FIRST, RATE).Ok?
              && (forall k :: k in s.db.outbox ==> s.db.outbox[k].published)
              && s.logs.estimatorCommitted == |s.logs.created| && s.logs.voyageCommitted == |s.logs.ready|
              && forall more :: Passed(Run(s, more), "v", 0)
  {
    var steps, s := CommitPasses();
    Prices();
    assert Passed(s, "v", 0);
    hide Run, Passed, PriceOf, WRun;
    forall more
      ensures Passed(Run(s, more), "v", 0)
    {
      ReachableInv(RATE, steps);
      PassedForGood(WRun(Start(RATE), steps), more, "v", 0);
      WRunState(WRun(Start(RATE), steps), more);
    }
  }

  /** A dead letter can be dropped: its produce fails, and the record is committed all the same. */
  lemma DeadLetterCanBeLost()
    ensures exists steps :: var s := Run(Initial(RATE), steps);
              s.logs.created == [Garbage(7)] && s.logs.estimatorCommitted == 1 && s.logs.createdDlq == []
  {
    var start := Initial(RATE);
    var t1 := [] + [PolluteCreated(7)];
    RunSnoc(start, [], PolluteCreated(7));
    var t2 := t1 + [Estimating(FetchStep(1))];
    RunSnoc(start, t1, Estimating(FetchStep(1)));
    assert Run(start, t2).est == Cursor(0, 1, []);
    var t3 := t2 + [Estimating(HandleStep(EstFate(true, Lost)))];
    RunSnoc(start, t2, Estimating(HandleStep(EstFate(true, Lost))));
    assert Run(start, t3).est == Cursor(1, 1, [0]);
    var t4 := t3 + [Estimating(CommitStep(true))];
    RunSnoc(start, t3, Estimating(CommitStep(true)));
    assert Run(start, t4).logs.estimatorCommitted == 1;
  }

  /** The estimate is priced, published and committed. */
  lemma Estimated() returns (steps: seq<Step>, s: State)
    ensures s == Run(Initial(RATE), steps)
    ensures s.db.voyages == map["v" := Row(FIRST, 1, None)] && s.db.inflight == map[]
    ensures s.db.outbox == map[0 := OutboxRow(VoyageCreated("v", FIRST, 1), true)]
    ensures s.logs.ready == [Event(EstimateReady("v", 1, 1005, USD))] && s.voy == Resume(0)
    ensures s.logs.estimatorCommitted == |s.logs.created| && s.logs.voyageCommitted == 0
  {
    var t0, s0 := Published();
    Prices();
    hide PriceOf, Run;
    var start := Initial(RATE);
    var t1 := t0 + [Estimating(FetchStep(1))];
    RunSnoc(start, t0, Estimating(FetchStep(1)));
    assert Run(start, t1).est == Cursor(0, 1, []);
    var t2 := t1 + [Estimating(HandleStep(EstFate(true, Acked)))];
    RunSnoc(start, t1, Estimating(HandleStep(EstFate(true, Acked))));
    assert Run(start, t2).est == Cursor(1, 1, [0]);
    steps := t2 + [Estimating(CommitStep(true))];
    RunSnoc(start, t2, Estimating(CommitStep(true)));
    s := Run(start, steps);
  }

  /** An update before the estimate is applied. */
  lemma UpdatedFirst() returns (steps: seq<Step>, s: State)
    ensures s == Run(Initial(RATE), steps)
    ensures s.db.voyages == map["v" := Row(EDITED, 2, None)]
    ensures s.db.outbox == map[0 := OutboxRow(VoyageCreated("v", FIRST, 1), true)]
    ensures s.logs.estimatorCommitted == |s.logs.created| && s.logs.voyageCommitted == |s.logs.ready|
    ensures s.logs.ready == [Event(EstimateReady("v", 1, 1005, USD))]
  {
    var t0, s0 := Estimated();
    hide Run;
    var start := Initial(RATE);
    var t1 := t0 + [Statement(UpdateVoyage(EDIT))];
    RunSnoc(start, t0, Statement(UpdateVoyage(EDIT)));
    var s1 := Run(start, t1);
    assert s1 == s0.(db := s0.db.(voyages := map["v" := Row(EDITED, 2, None)]));
    var t2 := t1 + [Applying(FetchStep(1))];
    RunSnoc(start, t1, Applying(FetchStep(1)));
    assert Run(start, t2) == s1.(voy := Cursor(0, 1, []));
    var t3 := t2 + [Applying(HandleStep(VoyFate(Acked, CallOk)))];
    RunSnoc(start, t2, Applying(HandleStep(VoyFate(Acked, CallOk))));
    assert Run(start, t3) == s1.(voy := Cursor(1, 1, [0]));
    steps := t3 + [Applying(CommitStep(true))];
    RunSnoc(start, t3, Applying(CommitStep(true)));
    s := Run(start, steps);
  }

  /** An update can cost a voyage its estimate for good: the estimate of version 1 arrives after the update and is
      a no-op, no event is written for version 2, and so a drained pipeline leaves the voyage without an estimate
      in every continuation. */
  lemma EstimateCanBeSilenced()
    ensures exists steps :: var s := Run(Initial(RATE), steps);
              && Drained(s) && s.logs.ready == [Event(EstimateReady("v", 1, 1005, USD))]
              && PriceOf(FIRST, RATE).Ok? && PriceOf(EDITED, RATE).Ok?
              && forall more :: Silenced(Run(s, more), "v")
  {
    var steps, s := UpdatedFirst();
    Prices();
    assert Silenced(s, "v") && Drained(s);
    hide Run, Silenced, Drained, PriceOf, WRun;
    forall more
      ensures Silenced(Run(s, more), "v")
    {
      ReachableInv(RATE, steps);
      SilencedForGood(WRun(Start(RATE), steps), more, "v");
      WRunState(WRun(Start(RATE), steps), more);
    }
  }

  /** The estimate is applied. */
  lemma Applied() returns (steps: seq<Step>, s: State)
    ensures s == Run(Initial(RATE), steps)
    ensures s.db.voyages == map["v" := Row(FIRST, 1, Some(1005))]
  {
    var t0, s0 := Estimated();
    var start := Initial(RATE);
    var t1 := t0 + [Applying(FetchStep(1))];
    RunSnoc(start, t0, Applying(FetchStep(1)));
    hide Run;
    assert Run(start, t1).voy == Cursor(0, 1, []) && Run(start, t1).logs == s0.logs;
    steps := t1 + [Applying(HandleStep(VoyFate(Acked, CallOk)))];
    RunSnoc(start, t1, Applying(HandleStep(VoyFate(Acked, CallOk))));
    s := Run(start, steps);
  }

  /** An applied estimate need not price the current row: an update keeps the estimate of version 1. */
  lemma EstimateCanBeStale()
    ensures exists steps :: var s := Run(Initial(RATE), steps);
              && "v" in s.db.voyages
              && s.db.voyages["v"] == Row(EDITED, 2, Some(1005))
              && PriceOf(EDITED, RATE) == Ok(FromUSD(2005))
  {
    var t0, s0 := Applied();
    Prices();
    var start := Initial(RATE);
    var t1 := t0 + [Statement(UpdateVoyage(EDIT))];
    RunSnoc(start, t0, Statement(UpdateVoyage(EDIT)));
    hide Run, PriceOf;
    assert Run(start, t1).db.voyages["v"] == Row(EDITED, 2, Some(1005));
  }

  /** A retried create can quote another amount than the estimate to come: after an update it
      returns, and quotes, the edited row. */
  lemma RetriedCreateQuotesTheEdit()
    ensures exists steps :: var s := Run(Initial(RATE), steps);
              && var reply := CreateReply(RATE, s.db, CREATED, NoFault, Reachable);
              && reply == Ok(CreateResponse(Voyage("v", EDITED, 2, 0), 2005, false))
              && PriceOf(FIRST, RATE) == Ok(FromUSD(1005))
  {
    var t0, s0 := Published();
    Prices();
    hide PriceOf;
    var start := Initial(RATE);
    var t1 := t0 + [Statement(UpdateVoyage(EDIT))];
    RunSnoc(start, t0, Statement(UpdateVoyage(EDIT)));
    var s := Run(start, t1);
    assert s.db.voyages["v"] == Row(EDITED, 2, None);
    assert AfterCreate(s.db, CREATED, NoFault) == s.db;
  }
}
