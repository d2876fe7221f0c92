/** Safety over whole runs of the estimate pipeline. Every statement is about an arbitrary
    interleaving of creates, updates, relay passes, consumer batches, redelivery and crashes that
    starts from empty stores. */
module PipelineTheorems {
  import opened Int64
  import opened Wrappers
  import opened Voyages
  import opened Money
  import opened Storage
  import opened OutboxRelay
  import opened EstimatorConsumer
  import opened EstimateConsumer
  import opened Pipeline
  import opened Invariants
  import opened Server

  // ---- rows only move forward ------------------------------------------------------------------

  /** A later state of a row: a higher version, or the same version and content; an estimate, once
      there, stays. */
  predicate Later(row: Row, row': Row) {
    && (row'.version > row.version || (row'.version == row.version && row'.content == row.content))
    && (row.estimate.Some? ==> row'.estimate == row.estimate)
  }

  ghost predicate RowsAdvance(voyages: map<string, Row>, voyages': map<string, Row>) {
    forall id :: id in voyages ==> id in voyages' && Later(voyages[id], voyages'[id])
  }

  lemma StatementAdvances(w: World, d: DbStep)
    requires Inv(w)
    ensures RowsAdvance(w.s.db.voyages, Next(w.s, Statement(d)).db.voyages)
  {
    if Accepted(d) {
      assert Ledger(w.s.db, w.h.born);
      hide Inv, Ledger, DbNext, ObserveBirth;
      StatementFrame(w.s.db, w.h.born, d);
      forall id | id in w.s.db.voyages
        ensures id in DbNext(w.s.db, d).voyages && Later(w.s.db.voyages[id], DbNext(w.s.db, d).voyages[id])
      {
        assert Moves(w.s.db.voyages[id], DbNext(w.s.db, d).voyages[id]);
      }
    }
  }

  lemma ApplyingAdvances(w: World, y: VoyStep)
    requires Inv(w)
    ensures RowsAdvance(w.s.db.voyages, Next(w.s, Applying(y)).db.voyages)
  {
    var s := w.s;
    hide Ledger, Relayed, EstProgress;
    if y.HandleStep? && s.voy.next < s.voy.position {
      assert w.h.born.Keys == s.db.voyages.Keys by { LedgerKeys(w); }
      VoyEffectKeeps(s.rate, s.db.voyages, s.logs, w.h.born, s.voy.next, y.fate);
      hide VoyEffect, Inv;
    }
  }

  lemma LedgerKeys(w: World)
    requires Inv(w)
    ensures w.h.born.Keys == w.s.db.voyages.Keys
  {}

  lemma StepAdvances(w: World, step: Step)
    requires Inv(w)
    ensures RowsAdvance(w.s.db.voyages, Next(w.s, step).db.voyages)
  {
    hide Inv;
    match step
    case Statement(d) => StatementAdvances(w, d);
    case Applying(y) => ApplyingAdvances(w, y);
    case _ =>
  }

  /** The births on record stay on record. */
  lemma BornStays(w: World, step: Step)
    requires Inv(w)
    ensures forall id :: id in w.h.born ==> id in WNext(w, step).h.born && WNext(w, step).h.born[id] == w.h.born[id]
  {
    hide Next, DbNext, ObserveEst, ObserveVoy, AppliedTo;
    hide Contents, Estimates, Topics, Relayed, DeadLetters, EstProgress, VoyProgress, AppliedOnce;
    match step
    case Statement(d) =>
    case _ =>
  }

  lemma {:induction false} RunAdvances(w: World, steps: seq<Step>)
    requires Inv(w)
    ensures RowsAdvance(w.s.db.voyages, WRun(w, steps).s.db.voyages)
    ensures forall id :: id in w.h.born ==> id in WRun(w, steps).h.born && WRun(w, steps).h.born[id] == w.h.born[id]
    decreases |steps|
  {
    if steps != [] {
      var init := steps[..|steps| - 1];
      RunAdvances(w, init);
      RunKeeps(w, init);
      var w' := WRun(w, init);
      StepAdvances(w', steps[|steps| - 1]);
      BornStays(w', steps[|steps| - 1]);
      hide Inv, Next, Observe;
      AdvanceTransitive(w.s.db.voyages, w'.s.db.voyages, WRun(w, steps).s.db.voyages);
    }
  }

  lemma AdvanceTransitive(a: map<string, Row>, b: map<string, Row>, c: map<string, Row>)
    requires RowsAdvance(a, b) && RowsAdvance(b, c)
    ensures RowsAdvance(a, c)
  {
    forall id | id in a
      ensures id in c && Later(a[id], c[id])
    {
      assert Later(a[id], b[id]) && Later(b[id], c[id]);
    }
  }

  lemma {:induction false} WRunConcat(w: World, a: seq<Step>, b: seq<Step>)
    ensures WRun(w, a + b) == WRun(WRun(w, a), b)
    decreases |b|
  {
    hide WNext;
    if b == [] {
      assert a + b == a;
    } else {
      WRunConcat(w, a, b[..|b| - 1]);
      assert (a + b)[..|a + b| - 1] == a + b[..|b| - 1];
    }
  }

  /** Version history is functional: along a run a stored voyage never disappears, its version never
      falls, one version never stands for two contents, and an applied estimate never changes. */
  lemma VersionHistory(rate: Money, before: seq<Step>, after: seq<Step>, id: string)
    requires id in Run(Initial(rate), before).db.voyages
    ensures id in Run(Initial(rate), before + after).db.voyages
    ensures Later(Run(Initial(rate), before).db.voyages[id], Run(Initial(rate), before + after).db.voyages[id])
  {
    ReachableInv(rate, before);
    ReachableInv(rate, before + after);
    WRunConcat(Start(rate), before, after);
    RunAdvances(WRun(Start(rate), before), after);
  }

  /** Update answers with what a later SELECT finds. Whatever runs in between, an existing voyage is
      found at the requested version or above, and at exactly that version only with the requested
      content or with the content that already had it. */
  lemma UpdateIsSeen(rate: Money, before: seq<Step>, v: Voyage, between: seq<Step>)
    requires v.id in Run(Initial(rate), before).db.voyages && Validate(v).None?
    ensures var row := Run(Initial(rate), before).db.voyages[v.id];
            var steps := before + [Statement(UpdateVoyage(v))] + between;
            v.id in Run(Initial(rate), steps).db.voyages
            && var seen := Run(Initial(rate), steps).db.voyages[v.id];
               seen.version >= v.version
               && (seen.version == v.version ==>
                     seen.content == if row.version < v.version then v.content else row.content)
  {
    var updated := before + [Statement(UpdateVoyage(v))];
    assert updated[..|before|] == before;
    VersionHistory(rate, updated, between, v.id);
  }

  // ---- what an estimate is worth ----------------------------------------------------------------

  /** A stored estimate is exact: for every outbox row, which carries the content its voyage was created with
      at version 1, the voyage's estimate is missing, or is rate * distance + fees of that content over the
      unbounded integers. OutboxConservation says that each voyage has such a row. */
  lemma EstimateIsExact(rate: Money, steps: seq<Step>, k: nat)
    requires k in Run(Initial(rate), steps).db.outbox
    ensures var s := Run(Initial(rate), steps);
            var payload := s.db.outbox[k].payload;
            && payload.id in s.db.voyages
            && var estimate := s.db.voyages[payload.id].estimate;
               estimate.Some? ==>
                 && HasPrice(rate, payload.content)
                 && estimate.value == rate.minor * payload.content.distanceNm + payload.content.feesMinor
  {
    ReachableInv(rate, steps);
    RateIsFixed(Initial(rate), steps);
    var w := WRun(Start(rate), steps);
    var payload := w.s.db.outbox[k].payload;
    PriceExact(rate, payload.content);
    hide Run, WRun, PriceOf, HasPrice;
    assert w.h.born[payload.id].content == payload.content;
  }

  /** When a stored estimate prices the row as it is now: exactly when the present content can be priced and
      comes to what the created content came to. At version 1 it always does. */
  lemma EstimateIsCurrentExact(rate: Money, steps: seq<Step>, k: nat)
    requires k in Run(Initial(rate), steps).db.outbox
    ensures var s := Run(Initial(rate), steps);
            var created := s.db.outbox[k].payload;
            && created.id in s.db.voyages
            && var row := s.db.voyages[created.id];
               row.estimate.Some? ==>
                 && (PriceOf(row.content, rate) == Ok(Money(row.estimate.value, rate.currency)) <==>
                     HasPrice(rate, row.content) && Cost(rate, row.content) == Cost(rate, created.content))
                 && (row.version == 1 ==> row.content == created.content)
  {
    EstimateIsExact(rate, steps, k);
    OutboxConservation(rate, steps);
    var s := Run(Initial(rate), steps);
    PriceExact(rate, s.db.voyages[s.db.outbox[k].payload.id].content);
    hide Run, PriceOf, HasPrice;
  }

  lemma {:induction false} RateIsFixed(s: State, steps: seq<Step>)
    ensures Run(s, steps).rate == s.rate
    decreases |steps|
  {
    hide DbNext, RelayNext, EstNext, VoyNext;
    if steps != [] {
      RateIsFixed(s, steps[..|steps| - 1]);
    }
  }

  /** The outbox keeps what the voyages were created with: each voyage has exactly one outbox row, each outbox row
      belongs to a stored voyage, carries it at version 1, and shows the row itself while that is at
      version 1. A stamped row is in the topic. */
  lemma OutboxConservation(rate: Money, steps: seq<Step>)
    ensures var s := Run(Initial(rate), steps);
            && (forall id :: id in s.db.voyages ==>
                  exists k :: k in s.db.outbox && s.db.outbox[k].payload.id == id)
            && (forall k :: k in s.db.outbox ==>
                  var payload := s.db.outbox[k].payload;
                  && payload.id in s.db.voyages && payload.version == 1
                  && (s.db.voyages[payload.id].version == 1 ==> s.db.voyages[payload.id].content == payload.content)
                  && (s.db.outbox[k].published ==> Event(payload) in s.logs.created))
            && (forall j, k ::
                  j in s.db.outbox && k in s.db.outbox && s.db.outbox[j].payload.id == s.db.outbox[k].payload.id
                  ==> j == k)
            && (forall i :: 0 <= i < |s.logs.created| && s.logs.created[i].Event? ==>
                  exists k :: k in s.db.outbox && s.db.outbox[k].payload == s.logs.created[i].value)
  {
    ReachableInv(rate, steps);
    var w := WRun(Start(rate), steps);
    var s := w.s;
    hide Run, WRun;
    forall id | id in s.db.voyages
      ensures exists k :: k in s.db.outbox && s.db.outbox[k].payload.id == id
    {
      assert w.h.born[id].outboxId in s.db.outbox;
    }
    forall i | 0 <= i < |s.logs.created| && s.logs.created[i].Event?
      ensures exists k :: k in s.db.outbox && s.db.outbox[k].payload == s.logs.created[i].value
    {
      assert KnownVoyage(w.h.born, s.logs.created[i].value);
      assert w.h.born[s.logs.created[i].value.id].outboxId in s.db.outbox;
    }
  }

  /** Only undecodable records of a topic reach its dead-letter topic, verbatim. */
  lemma DeadLettersArePoison(rate: Money, steps: seq<Step>)
    ensures var logs := Run(Initial(rate), steps).logs;
            && (forall r :: r in logs.createdDlq ==> r.Garbage? && r in logs.created)
            && (forall r :: r in logs.readyDlq ==> r.Garbage? && r in logs.ready)
  {
    ReachableInv(rate, steps);
  }

  /** Exactly-once effect: however often records are published and redelivered, the guarded UPDATE
      has changed a voyage's row at most once, and once just when the row has an estimate. */
  lemma ExactlyOnceEffect(rate: Money, steps: seq<Step>, id: string)
    ensures AppliedCount(rate, steps, id) ==
            if id in Run(Initial(rate), steps).db.voyages && Run(Initial(rate), steps).db.voyages[id].estimate.Some?
            then 1 else 0
  {
    ReachableInv(rate, steps);
    CountIsApplied(rate, steps, id);
  }

  /** How many steps of the run were an application of an estimate to `id`. */
  ghost function AppliedCount(rate: Money, steps: seq<Step>, id: string): nat
    decreases |steps|
  {
    if steps == [] then 0
    else
      var init, step := steps[..|steps| - 1], steps[|steps| - 1];
      var s := Run(Initial(rate), init);
      AppliedCount(rate, init, id)
      + (if step.Applying? then AppliedTo(VoyView(s.db.voyages, s.logs, s.voy), step.y)[id] else 0)
  }

  lemma {:induction false} CountIsApplied(rate: Money, steps: seq<Step>, id: string)
    ensures AppliedCount(rate, steps, id) == WRun(Start(rate), steps).h.applied[id]
    decreases |steps|
  {
    hide Next, AppliedTo;
    if steps != [] {
      CountIsApplied(rate, steps[..|steps| - 1], id);
      WRunState(Start(rate), steps[..|steps| - 1]);
    }
  }

  // ---- updates that come before the estimate ---------------------------------------------------------------

  /** The voyage has moved past version 1 without an estimate. Update writes no event and the upsert demands
      version 1, so no estimate will ever be applied to it. */
  predicate Silenced(s: State, id: string) {
    id in s.db.voyages && s.db.voyages[id].version > 1 && s.db.voyages[id].estimate.None?
  }

  /** The step is an update that takes effect on a voyage still without an estimate. */
  predicate Overtakes(s: State, step: Step, id: string) {
    && step.Statement? && Accepted(step.d) && step.d.UpdateVoyage? && step.d.v.id == id
    && id in s.db.voyages && s.db.voyages[id].version < step.d.v.version && s.db.voyages[id].estimate.None?
  }

  /** Some update of the run came before the voyage's estimate. */
  predicate Overtaken(rate: Money, steps: seq<Step>, id: string)
    decreases |steps|
  {
    steps != [] &&
    var init, step := steps[..|steps| - 1], steps[|steps| - 1];
    Overtaken(rate, init, id) || Overtakes(Run(Initial(rate), init), step, id)
  }

  lemma StatementSilences(w: World, d: DbStep, id: string)
    requires Inv(w)
    ensures Silenced(Next(w.s, Statement(d)), id) <==> Silenced(w.s, id) || Overtakes(w.s, Statement(d), id)
  {
    hide Inv, Validate;
    VersionsFromOne(w, id);
    match d
    case Commit(x) =>
    case _ =>
  }

  /** Stored voyages are at version 1 or above, and an open transaction holds a new key. */
  lemma VersionsFromOne(w: World, id: string)
    requires Inv(w)
    ensures id in w.s.db.voyages ==> w.s.db.voyages[id].version >= 1 && id !in w.s.db.inflight
  {
    LedgerKeys(w);
    hide Topics, Relayed, Invariants.DeadLetters, EstProgress, VoyProgress, AppliedOnce, Estimates;
  }

  lemma ApplyingSilences(w: World, y: VoyStep, id: string)
    requires Inv(w)
    ensures Silenced(Next(w.s, Applying(y)), id) <==> Silenced(w.s, id)
  {
    hide Inv;
    var s := w.s;
    if y.HandleStep? && s.voy.next < |s.logs.ready| {
      ReadyIsKnown(w, s.voy.next);
    }
    match y
    case HandleStep(fate) =>
    case _ =>
  }

  lemma ReadyIsKnown(w: World, i: nat)
    requires Inv(w) && i < |w.s.logs.ready|
    ensures w.s.logs.ready[i].Event? ==>
              w.s.logs.ready[i].value.version == 1 && w.s.logs.ready[i].value.id in w.s.db.voyages
  {
    LedgerKeys(w);
    hide Ledger, Contents, Estimates, Relayed, Invariants.DeadLetters, EstProgress, VoyProgress, AppliedOnce;
    hide BirthPrice;
  }

  lemma StepSilences(w: World, step: Step, id: string)
    requires Inv(w)
    ensures Silenced(Next(w.s, step), id) <==> Silenced(w.s, id) || Overtakes(w.s, step, id)
  {
    hide Inv;
    match step
    case Statement(d) => StatementSilences(w, d, id);
    case Applying(y) => ApplyingSilences(w, y, id);
    case _ =>
  }

  /** A voyage is past version 1 without an estimate exactly when an update came first. */
  lemma {:induction false} SilencedExact(rate: Money, steps: seq<Step>, id: string)
    ensures Silenced(Run(Initial(rate), steps), id) <==> Overtaken(rate, steps, id)
    decreases |steps|
  {
    hide Next, Silenced, Overtakes, Inv, WRun;
    if steps == [] {
      assert !Silenced(Initial(rate), id) by { NothingSilenced(rate, id); }
    } else {
      var init := steps[..|steps| - 1];
      SilencedExact(rate, init, id);
      ReachableInv(rate, init);
      StepSilences(WRun(Start(rate), init), steps[|steps| - 1], id);
    }
  }

  lemma NothingSilenced(rate: Money, id: string)
    ensures !Silenced(Initial(rate), id)
  {}

  /** And then it stays so, whatever happens. */
  lemma {:induction false} SilencedForGood(w: World, steps: seq<Step>, id: string)
    requires Inv(w) && Silenced(w.s, id)
    ensures Silenced(WRun(w, steps).s, id)
    decreases |steps|
  {
    hide Inv, Next, Observe, Silenced, Overtakes;
    if steps != [] {
      var init := steps[..|steps| - 1];
      SilencedForGood(w, init, id);
      RunKeeps(w, init);
      StepSilences(WRun(w, init), steps[|steps| - 1], id);
    }
  }

  // ---- quotes ------------------------------------------------------------------------------------

  /** The step ends the transaction that holds the key. */
  predicate EndsTx(step: Step, id: string) {
    step == Statement(Commit(id)) || step == Statement(Rollback(id)) || step == VoyageServiceCrash
  }

  /** While a transaction is open, its content is what was inserted. */
  lemma StepHolds(s: State, step: Step, id: string)
    requires id in s.db.inflight && !EndsTx(step, id)
    ensures id in Next(s, step).db.inflight && Next(s, step).db.inflight[id].content == s.db.inflight[id].content
  {
    hide EstNext, VoyNext, Pending, First;
    match step
    case Statement(d) =>
    case _ =>
  }

  lemma {:induction false} TxHolds(s: State, steps: seq<Step>, id: string)
    requires id in s.db.inflight && forall i :: 0 <= i < |steps| ==> !EndsTx(steps[i], id)
    ensures id in Run(s, steps).db.inflight && Run(s, steps).db.inflight[id].content == s.db.inflight[id].content
    decreases |steps|
  {
    hide Next;
    if steps != [] {
      TxHolds(s, steps[..|steps| - 1], id);
      StepHolds(Run(s, steps[..|steps| - 1]), steps[|steps| - 1], id);
    }
  }

  /** A voyage is born with the content its transaction inserted, and stays so. */
  lemma BornWith(rate: Money, before: seq<Step>, v: Voyage, inside: seq<Step>)
    requires var db := Run(Initial(rate), before).db; v.id !in db.voyages && v.id !in db.inflight
    requires Validate(v).None? && forall i :: 0 <= i < |inside| ==> !EndsTx(inside[i], v.id)
    ensures var db := Run(Initial(rate), before + [Statement(InsertVoyage(v))] + inside).db;
            v.id in db.inflight && db.inflight[v.id].content == v.content
  {
    var inserted := before + [Statement(InsertVoyage(v))];
    assert inserted[..|before|] == before;
    var s := Run(Initial(rate), inserted);
    assert s == Next(Run(Initial(rate), before), Statement(InsertVoyage(v)));
    RunConcat(Initial(rate), inserted, inside);
    TxHolds(s, inside, v.id);
    hide Run, Next;
  }

  /** Quote agreement: the create that inserts a voyage quotes the inserted content, so if it came back with a
      quote, every estimate the voyage ever shows is that quote. Anything may run between the insert and the
      commit, short of what ends the transaction, and anything after it. */
  lemma QuoteAgreement(rate: Money, before: seq<Step>, v: Voyage, inside: seq<Step>, link: Link, after: seq<Step>)
    requires var db := Run(Initial(rate), before).db; v.id !in db.voyages && v.id !in db.inflight
    requires Validate(v).None? && forall i :: 0 <= i < |inside| ==> !EndsTx(inside[i], v.id)
    requires var db := Run(Initial(rate), before + [Statement(InsertVoyage(v))] + inside).db;
             v.id in db.inflight && db.inflight[v.id].outbox.Some?
    requires QuotedMinor(rate, v.id, Row(v.content, 1, None), link).Some?
    ensures var commit := before + [Statement(InsertVoyage(v))] + inside + [Statement(Commit(v.id))];
            var rows, quoted := Run(Initial(rate), commit).db.voyages, Row(v.content, 1, None);
            && v.id in rows && rows[v.id] == quoted
            && var rows' := Run(Initial(rate), commit + after).db.voyages;
               && v.id in rows'
               && (rows'[v.id].estimate.Some? ==> rows'[v.id].estimate == QuotedMinor(rate, v.id, quoted, link))
  {
    var held := before + [Statement(InsertVoyage(v))] + inside;
    var commit := held + [Statement(Commit(v.id))];
    BornWith(rate, before, v, inside);
    assert commit[..|held|] == held;
    assert Run(Initial(rate), commit) == Next(Run(Initial(rate), held), Statement(Commit(v.id)));
    EstimateOfFirst(rate, commit, after, v.id);
    hide Run, PriceOf;
  }

  /** The amount quoted to a caller to whom a row is returned, if any. */
  function QuotedMinor(rate: Money, id: string, row: Row, link: Link): Option<int64> {
    match QuotedReply(rate, id, row, link)
    case Ok(reply) => if reply.pending then None else Some(reply.provisionalMinor)
    case Err(_) => None
  }

  /** The estimate of a voyage seen at version 1 is the price of what was seen. */
  lemma EstimateOfFirst(rate: Money, before: seq<Step>, after: seq<Step>, id: string)
    requires id in Run(Initial(rate), before).db.voyages && Run(Initial(rate), before).db.voyages[id].version == 1
    ensures var rows, rows' := Run(Initial(rate), before).db.voyages, Run(Initial(rate), before + after).db.voyages;
            && id in rows'
            && (rows'[id].estimate.Some? ==>
                  PriceOf(rows[id].content, rate).Ok?
                  && rows'[id].estimate.value == PriceOf(rows[id].content, rate).value.minor)
  {
    var w, w' := WRun(Start(rate), before), WRun(Start(rate), before + after);
    ReachableInv(rate, before);
    ReachableInv(rate, before + after);
    RateIsFixed(Initial(rate), before + after);
    WRunConcat(Start(rate), before, after);
    RunAdvances(w, after);
    LedgerKeys(w);
    hide Run, WRun, PriceOf, Ledger, Topics, Relayed, DeadLetters, EstProgress, VoyProgress, AppliedOnce;
    assert w'.h.born[id] == w.h.born[id];
  }

  /** What any quote is worth, that of a retried create included: it prices the row it was given, read at some
    moment of the run, so the estimate of the voyage equals it exactly when that row's content comes to what the
    created content comes to. A row read at version 1 has the created content. */
  lemma QuoteExact(rate: Money, before: seq<Step>, id: string, link: Link, after: seq<Step>, k: nat)
    requires id in Run(Initial(rate), before).db.voyages
    requires QuotedMinor(rate, id, Run(Initial(rate), before).db.voyages[id], link).Some?
    requires var end := Run(Initial(rate), before + after); k in end.db.outbox && end.db.outbox[k].payload.id == id
    ensures var read, end := Run(Initial(rate), before).db.voyages[id], Run(Initial(rate), before + after).db;
            var quote, created := QuotedMinor(rate, id, read, link).value, end.outbox[k].payload.content;
            && id in end.voyages
            && quote == Cost(rate, read.content)
            && (read.version == 1 ==> read.content == created)
            && var estimate := end.voyages[id].estimate;
               estimate.Some? ==> (estimate.value == quote <==> Cost(rate, read.content) == Cost(rate, created))
  {
    var read := Run(Initial(rate), before).db.voyages[id];
    PriceExact(rate, read.content);
    assert QuotedMinor(rate, id, read, link).value == Cost(rate, read.content) by { hide Run, PriceOf; }
    hide QuotedMinor, PriceOf, Cost;
    CreatedContent(rate, before, after, id, k);
    ExactCost(rate, before + after, k);
  }

  lemma ExactCost(rate: Money, steps: seq<Step>, k: nat)
    requires k in Run(Initial(rate), steps).db.outbox
    ensures var s := Run(Initial(rate), steps);
            var payload := s.db.outbox[k].payload;
            && payload.id in s.db.voyages
            && var estimate := s.db.voyages[payload.id].estimate;
               estimate.Some? ==> estimate.value == Cost(rate, payload.content)
  {
    EstimateIsExact(rate, steps, k);
    hide Run;
  }

  /** A retried create finds its voyage: its INSERT changes nothing, and whatever runs before it reads the row
      back, there is a row to read, so its quote is one of those above. */
  lemma RetriedCreateReads(rate: Money, before: seq<Step>, v: Voyage, between: seq<Step>)
    requires v.id in Run(Initial(rate), before).db.voyages
    ensures var steps := before + [Statement(InsertVoyage(v))] + between;
            && Run(Initial(rate), steps) == Run(Initial(rate), before + between)
            && v.id in Run(Initial(rate), steps).db.voyages
            && Later(Run(Initial(rate), before).db.voyages[v.id], Run(Initial(rate), steps).db.voyages[v.id])
  {
    var inserted := before + [Statement(InsertVoyage(v))];
    assert inserted[..|before|] == before;
    assert Run(Initial(rate), inserted) == Run(Initial(rate), before);
    hide Run;
    RunConcat(Initial(rate), inserted, between);
    RunConcat(Initial(rate), before, between);
    VersionHistory(rate, before, between, v.id);
  }

  /** The reply of a CreateVoyage call that meets nobody else is the quote of a row in the tables it leaves,
      which a run leaves too. */
  lemma CreateReplyQuotes(rate: Money, before: seq<Step>, v: Voyage, fault: CreateFault, link: Link)
    returns (call: seq<Step>)
    requires v.id !in Run(Initial(rate), before).db.inflight
    requires CreateReply(rate, Run(Initial(rate), before).db, v, fault, link).Ok?
    ensures var s := Run(Initial(rate), before);
            var s', reply := Run(Initial(rate), before + call), CreateReply(rate, s.db, v, fault, link).value;
            && s' == s.(db := AfterCreate(s.db, v, fault)) && v.id in s'.db.voyages
            && reply.voyage == ToVoyage(v.id, s'.db.voyages[v.id]) && (reply.pending <==> link.Unreachable?)
            && QuotedMinor(rate, v.id, s'.db.voyages[v.id], link)
               == if reply.pending then None else Some(reply.provisionalMinor)
  {
    call := CallSteps(rate, before, v, fault);
    hide Run, PriceOf, DbRun, CreateTrace;
    ReplyQuotesItsRow(rate, Run(Initial(rate), before).db, v, fault, link);
  }

  /** A create call on validated input is a run. */
  lemma CallSteps(rate: Money, before: seq<Step>, v: Voyage, fault: CreateFault) returns (call: seq<Step>)
    requires v.id !in Run(Initial(rate), before).db.inflight
    ensures var s := Run(Initial(rate), before);
            Run(Initial(rate), before + call) == s.(db := AfterCreate(s.db, v, fault))
  {
    var s := Run(Initial(rate), before);
    if Validate(v).Some? {
      call := [];
      assert before + [] == before;
    } else {
      call := Statements(CreateTrace(s.db, v, fault));
      StatementsRun(s, CreateTrace(s.db, v, fault));
      RunConcat(Initial(rate), before, call);
    }
  }

  /** A row at version 1 has the content its outbox row will always show. */
  lemma CreatedContent(rate: Money, before: seq<Step>, after: seq<Step>, id: string, k: nat)
    requires id in Run(Initial(rate), before).db.voyages
    requires var db := Run(Initial(rate), before + after).db; k in db.outbox && db.outbox[k].payload.id == id
    ensures var row := Run(Initial(rate), before).db.voyages[id];
            row.version == 1 ==> row.content == Run(Initial(rate), before + after).db.outbox[k].payload.content
  {
    var w, w' := WRun(Start(rate), before), WRun(Start(rate), before + after);
    ReachableInv(rate, before);
    ReachableInv(rate, before + after);
    WRunConcat(Start(rate), before, after);
    RunAdvances(w, after);
    LedgerKeys(w);
    hide Run, WRun, Estimates, Topics, Relayed, DeadLetters, EstProgress, VoyProgress, AppliedOnce;
    assert w'.h.born[id] == w.h.born[id];
  }
}
