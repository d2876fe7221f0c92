/** The estimate pipeline as a step system: every database statement, produce, commit, restart
    and crash of the three processes is one step, in any interleaving. */
module Pipeline {
  import opened Voyages
  import opened Money
  import opened Storage
  import opened Broker
  import opened OutboxRelay
  import opened Polling
  import opened EstimatorConsumer
  import opened EstimateConsumer

  /** The shared stores, and what each loop holds in memory. The rate is fixed for the run. */
  datatype State = State(rate: Money, db: Db, logs: Logs, relay: Relay, est: Cursor, voy: Cursor)

  function Initial(rate: Money): State {
    State(rate, EMPTY_DB, EMPTY_LOGS, IDLE, Resume(0), Resume(0))
  }

  datatype Step =
    | Statement(d: DbStep)
    | Relaying(r: RelayStep)
    | Estimating(e: EstStep)
    | Applying(y: VoyStep)
    | VoyageServiceCrash
    | PolluteCreated(raw: nat)
    | PolluteReady(raw: nat)

  /** Both write paths validate before they reach the repository. */
  predicate Accepted(d: DbStep) {
    match d
    case InsertVoyage(v) => Validate(v).None?
    case UpdateVoyage(v) => Validate(v).None?
    case _ => true
  }

  /** One step. A step that is not enabled changes nothing. */
  function Next(s: State, step: Step): State {
    match step
    case Statement(d) =>
      if Accepted(d) then s.(db := DbNext(s.db, d)) else s
    case Relaying(r) =>
      var v := RelayNext(RelayView(s.db, s.logs, s.relay), r);
      s.(db := v.db, logs := v.logs, relay := v.relay)
    case Estimating(e) =>
      var v := EstNext(s.rate, EstView(s.logs, s.est), e);
      s.(logs := v.logs, est := v.cur)
    case Applying(y) =>
      var v := VoyNext(VoyView(s.db.voyages, s.logs, s.voy), y);
      s.(db := s.db.(voyages := v.voyages), logs := v.logs, voy := v.cur)
    case VoyageServiceCrash =>
      // open transactions roll back, and the relay and the consumer lose their memory
      s.(db := s.db.(inflight := map[]), relay := IDLE, voy := Resume(s.logs.voyageCommitted))
    case PolluteCreated(raw) => s.(logs := s.logs.(created := s.logs.created + [Garbage(raw)]))
    case PolluteReady(raw) => s.(logs := s.logs.(ready := s.logs.ready + [Garbage(raw)]))
  }

  function Run(s: State, steps: seq<Step>): State
    decreases |steps|
  {
    if steps == [] then s
    else Next(Run(s, steps[..|steps| - 1]), steps[|steps| - 1])
  }

  lemma {:induction false} RunConcat(s: State, a: seq<Step>, b: seq<Step>)
    ensures Run(s, a + b) == Run(Run(s, a), b)
    decreases |b|
  {
    if b == [] {
      assert a + b == a;
    } else {
      var init := b[..|b| - 1];
      RunConcat(s, a, init);
      assert (a + b)[..|a + b| - 1] == a + init;
    }
  }

  // ---- what the services' methods do, seen as runs ------------------------------------------

  function Statements(ds: seq<DbStep>): seq<Step> { seq(|ds|, i requires 0 <= i < |ds| => Statement(ds[i])) }

  function Relayings(rs: seq<RelayStep>): seq<Step> { seq(|rs|, i requires 0 <= i < |rs| => Relaying(rs[i])) }

  function Estimatings(es: seq<EstStep>): seq<Step> { seq(|es|, i requires 0 <= i < |es| => Estimating(es[i])) }

  function Applyings(ys: seq<VoyStep>): seq<Step> { seq(|ys|, i requires 0 <= i < |ys| => Applying(ys[i])) }

  /** The statements of a call on a validated voyage are a run. */
  lemma {:induction false} StatementsRun(s: State, ds: seq<DbStep>)
    requires forall i :: 0 <= i < |ds| ==> Accepted(ds[i])
    ensures Run(s, Statements(ds)) == s.(db := DbRun(s.db, ds))
    decreases |ds|
  {
    if ds != [] {
      StatementsRun(s, ds[..|ds| - 1]);
      assert Statements(ds)[..|ds| - 1] == Statements(ds[..|ds| - 1]);
    }
  }

  lemma {:induction false} RelayingsRun(s: State, rs: seq<RelayStep>)
    ensures var v := RelayRun(RelayView(s.db, s.logs, s.relay), rs);
            Run(s, Relayings(rs)) == s.(db := v.db, logs := v.logs, relay := v.relay)
    decreases |rs|
  {
    if rs != [] {
      RelayingsRun(s, rs[..|rs| - 1]);
      assert Relayings(rs)[..|rs| - 1] == Relayings(rs[..|rs| - 1]);
    }
  }

  lemma {:induction false} EstimatingsRun(s: State, es: seq<EstStep>)
    ensures var v := LoopRun(EstLoop(s.rate), EstView(s.logs, s.est), es);
            Run(s, Estimatings(es)) == s.(logs := v.logs, est := v.cur)
    decreases |es|
  {
    hide EstNext;
    if es != [] {
      EstimatingsRun(s, es[..|es| - 1]);
      assert Estimatings(es)[..|es| - 1] == Estimatings(es[..|es| - 1]);
    }
  }

  lemma {:induction false} ApplyingsRun(s: State, ys: seq<VoyStep>)
    ensures var v := LoopRun(VoyLoop(), VoyView(s.db.voyages, s.logs, s.voy), ys);
            Run(s, Applyings(ys)) == s.(db := s.db.(voyages := v.voyages), logs := v.logs, voy := v.cur)
    decreases |ys|
  {
    hide VoyNext;
    if ys != [] {
      ApplyingsRun(s, ys[..|ys| - 1]);
      assert Applyings(ys)[..|ys| - 1] == Applyings(ys[..|ys| - 1]);
    }
  }

  /** A relay pass, whatever fails in it, is a run of the step system. */
  lemma FlushRefines(s: State, fates: nat -> RowFate)
    requires s.relay == IDLE
    ensures var v := Flushed(s.db, s.logs, fates);
            exists steps :: Run(s, steps) == s.(db := v.db, logs := v.logs, relay := v.relay)
  {
    var n := |First(Pending(s.db), BATCH)|;
    PassIsRun(s.db, s.logs, fates, n);
    RelayingsRun(s, PassTrace(fates, n));
  }

  /** The estimator's polling loop is a run of the step system. */
  lemma EstimatorLoopRefines(s: State, polls: seq<Poll<EstFate>>)
    ensures var v := Looped(EstLoop(s.rate), EstView(s.logs, s.est), polls);
            exists steps :: Run(s, steps) == s.(logs := v.logs, est := v.cur)
  {
    LoopIsRun(EstLoop(s.rate), EstView(s.logs, s.est), polls);
    EstimatingsRun(s, LoopTrace(polls));
  }

  /** The voyage consumer's polling loop is a run of the step system. */
  lemma VoyageLoopRefines(s: State, polls: seq<Poll<VoyFate>>)
    ensures var v := Looped(VoyLoop(), VoyView(s.db.voyages, s.logs, s.voy), polls);
            exists steps :: Run(s, steps) == s.(db := s.db.(voyages := v.voyages), logs := v.logs, voy := v.cur)
  {
    LoopIsRun(VoyLoop(), VoyView(s.db.voyages, s.logs, s.voy), polls);
    ApplyingsRun(s, LoopTrace(polls));
  }
}
