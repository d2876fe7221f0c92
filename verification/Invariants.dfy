/** What every step of the pipeline keeps. A history observes each run beside the state: how each
    voyage was born, which offsets were handled with which verdict, and how often an estimate
    changed a row. The steps never read it. */
module Invariants {
  import opened Int64
  import opened Wrappers
  import opened Voyages
  import opened Money
  import opened Storage
  import opened Broker
  import opened OutboxRelay
  import opened Polling
  import opened EstimatorConsumer
  import opened EstimateConsumer
  import opened Pipeline

  /** The outbox row a voyage was committed with, and its content then. */
  datatype Birth = Birth(outboxId: nat, content: Content)

  /** Offsets handled with success ever, and with failure since the last restart. */
  datatype Verdicts = Verdicts(done: set<nat>, failed: set<nat>)

  datatype History = History(born: map<string, Birth>, est: Verdicts, voy: Verdicts, applied: multiset<string>)

  datatype World = World(s: State, h: History)

  function Start(rate: Money): World {
    World(Initial(rate), History(map[], Verdicts({}, {}), Verdicts({}, {}), multiset{}))
  }

  function Judged(v: Verdicts, offset: nat, succeeded: bool): Verdicts {
    if succeeded then v.(done := v.done + {offset}) else v.(failed := v.failed + {offset})
  }

  function ObserveBirth(born: map<string, Birth>, db: Db, d: DbStep): map<string, Birth> {
    if d.Commit? && d.id in db.inflight && db.inflight[d.id].outbox.Some?
    then born[d.id := Birth(db.inflight[d.id].outbox.value.0, db.inflight[d.id].content)]
    else born
  }

  function ObserveEst(rate: Money, e: Verdicts, v: EstView, step: EstStep): Verdicts {
    match step
    case HandleStep(fate) =>
      if v.cur.next < v.cur.position && v.cur.next < |v.logs.created|
      then Judged(e, v.cur.next, EstEffect(rate, v.logs, v.logs.created[v.cur.next], fate).1)
      else e
    case RestartStep => e.(failed := {})
    case _ => e
  }

  function ObserveVoy(e: Verdicts, v: VoyView, step: VoyStep): Verdicts {
    match step
    case HandleStep(fate) =>
      if v.cur.next < v.cur.position && v.cur.next < |v.logs.ready|
      then Judged(e, v.cur.next, VoyEffect(v.voyages, v.logs, v.logs.ready[v.cur.next], fate).2)
      else e
    case RestartStep => e.(failed := {})
    case _ => e
  }

  /** The voyage whose row this step's guarded UPDATE changes, if any. */
  function AppliedTo(v: VoyView, step: VoyStep): multiset<string> {
    if step.HandleStep? && v.cur.next < v.cur.position && v.cur.next < |v.logs.ready|
       && v.logs.ready[v.cur.next].Event? && !step.fate.db.CallLost?
    then
      var er := v.logs.ready[v.cur.next].value;
      if Upsert(v.voyages, er.id, er.version, er.amountMinor).1 then multiset{er.id} else multiset{}
    else multiset{}
  }

  function Observe(h: History, s: State, step: Step): History {
    match step
    case Statement(d) => if Accepted(d) then h.(born := ObserveBirth(h.born, s.db, d)) else h
    case Estimating(e) => h.(est := ObserveEst(s.rate, h.est, EstView(s.logs, s.est), e))
    case Applying(y) =>
      var v := VoyView(s.db.voyages, s.logs, s.voy);
      h.(voy := ObserveVoy(h.voy, v, y), applied := h.applied + AppliedTo(v, y))
    case VoyageServiceCrash => h.(voy := h.voy.(failed := {}))
    case _ => h
  }

  function WNext(w: World, step: Step): World { World(Next(w.s, step), Observe(w.h, w.s, step)) }

  function WRun(w: World, steps: seq<Step>): World
    decreases |steps|
  {
    if steps == [] then w
    else WNext(WRun(w, steps[..|steps| - 1]), steps[|steps| - 1])
  }

  lemma {:induction false} WRunState(w: World, steps: seq<Step>)
    ensures WRun(w, steps).s == Run(w.s, steps)
    decreases |steps|
  {
    hide Next;
    hide Observe;
    if steps != [] {
      WRunState(w, steps[..|steps| - 1]);
    }
  }

  // ---- the invariant, part by part ---------------------------------------------------------

  ghost predicate KnownVoyage(born: map<string, Birth>, vc: VoyageCreated) {
    vc.id in born && vc == VoyageCreated(vc.id, born[vc.id].content, 1)
  }

  /** The price of the content a voyage was created with. */
  function BirthPrice(rate: Money, b: Birth): Option<int64> {
    var price := PriceOf(b.content, rate);
    if price.Ok? then Some(price.value.minor) else None
  }

  ghost predicate KnownEstimate(rate: Money, born: map<string, Birth>, er: EstimateReady) {
    er.id in born && er.version == 1 && BirthPrice(rate, born[er.id]) == Some(er.amountMinor)
  }

  /** Voyages, births and outbox rows correspond one to one, and open transactions hold fresh keys
      and fresh outbox ids. */
  ghost predicate Ledger(db: Db, born: map<string, Birth>) {
    && born.Keys == db.voyages.Keys
    && (forall id :: id in born ==>
          && born[id].content.distanceNm >= 0
          && born[id].outboxId in db.outbox
          && db.outbox[born[id].outboxId].payload == VoyageCreated(id, born[id].content, 1))
    && (forall k :: k in db.outbox ==>
          && k < db.nextId
          && db.outbox[k].payload.id in born && born[db.outbox[k].payload.id].outboxId == k)
    && (forall id :: id in db.inflight ==>
          && id !in db.voyages
          && db.inflight[id].content.distanceNm >= 0
          && (db.inflight[id].outbox.Some? ==>
                && db.inflight[id].outbox.value.0 < db.nextId
                && db.inflight[id].outbox.value.0 !in db.outbox
                && db.inflight[id].outbox.value.1 == VoyageCreated(id, db.inflight[id].content, 1)))
    && (forall a, b :: a in db.inflight && b in db.inflight && a != b
          && db.inflight[a].outbox.Some? && db.inflight[b].outbox.Some?
          ==> db.inflight[a].outbox.value.0 != db.inflight[b].outbox.value.0)
  }

  /** A row at version 1 still has the content it was created with. */
  ghost predicate Contents(voyages: map<string, Row>, born: map<string, Birth>) {
    forall id :: id in voyages && id in born ==>
      voyages[id].version >= 1 && (voyages[id].version == 1 ==> voyages[id].content == born[id].content)
  }

  ghost predicate Estimates(rate: Money, voyages: map<string, Row>, born: map<string, Birth>) {
    forall id :: id in voyages && id in born && voyages[id].estimate.Some? ==>
      BirthPrice(rate, born[id]) == voyages[id].estimate
  }

  ghost predicate Topics(rate: Money, logs: Logs, born: map<string, Birth>) {
    && (forall i :: 0 <= i < |logs.created| && logs.created[i].Event? ==> KnownVoyage(born, logs.created[i].value))
    && (forall i :: 0 <= i < |logs.ready| && logs.ready[i].Event? ==> KnownEstimate(rate, born, logs.ready[i].value))
  }

  /** A stamped row has been published, and so has the row whose stamp is due. */
  ghost predicate Relayed(db: Db, logs: Logs, relay: Relay) {
    && (forall k :: k in db.outbox && db.outbox[k].published ==> Event(db.outbox[k].payload) in logs.created)
    && (forall i :: 0 <= i < |relay.batch| ==> relay.batch[i] in db.outbox)
    && (relay.acked ==> relay.batch != [] && Event(db.outbox[relay.batch[0]].payload) in logs.created)
  }

  ghost predicate DeadLetters(logs: Logs) {
    && (forall r :: r in logs.createdDlq ==> r.Garbage? && r in logs.created)
    && (forall r :: r in logs.readyDlq ==> r.Garbage? && r in logs.ready)
  }

  /** Where a group member stands: everything between the committed offset and the next record has
      been handled, and what it is about to commit has succeeded. */
  ghost predicate Tracks(cur: Cursor, committed: nat, end: nat, v: Verdicts) {
    && committed <= cur.next <= cur.position <= end
    && (forall o :: committed <= o < cur.next ==> o in v.done || o in v.failed)
    && (forall o :: o in v.done ==> o < end)
    && (forall i :: 0 <= i < |cur.committable| ==>
          committed <= cur.committable[i] < cur.next && cur.committable[i] in v.done)
    && (forall i, j :: 0 <= i < j < |cur.committable| ==> cur.committable[i] < cur.committable[j])
  }

  /** A voyage.created record that needs no more work. */
  ghost predicate Priced(rate: Money, logs: Logs, r: Record<VoyageCreated>) {
    r.Event? ==>
      var price := PriceOf(r.value.content, rate);
      price.Err? || Event(BuildEstimateReady(r.value, price.value)) in logs.ready
  }

  /** An estimate.ready record that needs no more work. */
  ghost predicate Settled(voyages: map<string, Row>, r: Record<EstimateReady>) {
    r.Event? ==>
      && r.value.id in voyages
      && (voyages[r.value.id].version > r.value.version || voyages[r.value.id].estimate == Some(r.value.amountMinor))
  }

  ghost predicate EstProgress(rate: Money, logs: Logs, cur: Cursor, v: Verdicts) {
    && Tracks(cur, logs.estimatorCommitted, |logs.created|, v)
    && forall o :: o in v.done ==> o < |logs.created| && Priced(rate, logs, logs.created[o])
  }

  ghost predicate VoyProgress(voyages: map<string, Row>, logs: Logs, cur: Cursor, v: Verdicts) {
    && Tracks(cur, logs.voyageCommitted, |logs.ready|, v)
    && forall o :: o in v.done ==> o < |logs.ready| && Settled(voyages, logs.ready[o])
  }

  /** An estimate has been applied to a voyage once if the row has one, otherwise never. */
  ghost predicate AppliedOnce(voyages: map<string, Row>, applied: multiset<string>) {
    forall id :: applied[id] == if id in voyages && voyages[id].estimate.Some? then 1 else 0
  }

  ghost predicate Inv(w: World) {
    && Ledger(w.s.db, w.h.born)
    && Contents(w.s.db.voyages, w.h.born)
    && Estimates(w.s.rate, w.s.db.voyages, w.h.born)
    && Topics(w.s.rate, w.s.logs, w.h.born)
    && Relayed(w.s.db, w.s.logs, w.s.relay)
    && DeadLetters(w.s.logs)
    && EstProgress(w.s.rate, w.s.logs, w.s.est, w.h.est)
    && VoyProgress(w.s.db.voyages, w.s.logs, w.s.voy, w.h.voy)
    && AppliedOnce(w.s.db.voyages, w.h.applied)
  }

  // ---- preservation --------------------------------------------------------------------------

  lemma StartInv(rate: Money)
    ensures Inv(Start(rate))
  {}

  lemma InsertKeepsLedger(db: Db, born: map<string, Birth>, v: Voyage)
    requires Ledger(db, born) && Validate(v).None?
    ensures Ledger(DbNext(db, InsertVoyage(v)), born)
  {}

  lemma OutboxKeepsLedger(db: Db, born: map<string, Birth>, id: string)
    requires Ledger(db, born)
    ensures Ledger(DbNext(db, InsertOutbox(id)), born)
  {}

  lemma CommitKeepsLedger(db: Db, born: map<string, Birth>, id: string)
    requires Ledger(db, born)
    ensures Ledger(DbNext(db, Commit(id)), ObserveBirth(born, db, Commit(id)))
  {}

  lemma LedgerKept(db: Db, born: map<string, Birth>, d: DbStep)
    requires Ledger(db, born) && Accepted(d)
    ensures Ledger(DbNext(db, d), ObserveBirth(born, db, d))
  {
    match d
    case InsertVoyage(v) => InsertKeepsLedger(db, born, v);
    case InsertOutbox(id) => OutboxKeepsLedger(db, born, id);
    case Commit(id) => CommitKeepsLedger(db, born, id);
    case Rollback(_) =>
    case UpdateVoyage(_) =>
  }

  /** What a change to the tables leaves in place: births and outbox rows stay, committed rows keep
      their estimate and are replaced only by a higher version, and new rows start at version 1
      without an estimate and with an unstamped outbox row. */
  ghost predicate Frame(db: Db, born: map<string, Birth>, db': Db, born': map<string, Birth>) {
    && (forall id :: id in born ==> id in born' && born'[id] == born[id])
    && (forall id :: id in db.voyages ==> id in db'.voyages && Moves(db.voyages[id], db'.voyages[id]))
    && (forall id :: id in db'.voyages && id !in db.voyages ==>
          id in born' && db'.voyages[id] == Row(born'[id].content, 1, None))
    && (forall k :: k in db.outbox ==> k in db'.outbox && db'.outbox[k] == db.outbox[k])
    && (forall k :: k in db'.outbox && k !in db.outbox ==> !db'.outbox[k].published)
  }

  predicate Moves(row: Row, row': Row) {
    row' == row || (row'.version > row.version && row'.estimate == row.estimate)
  }

  lemma CommitTxFrame(db: Db, born: map<string, Birth>, id: string)
    requires Ledger(db, born)
    ensures Frame(db, born, DbNext(db, Commit(id)), ObserveBirth(born, db, Commit(id)))
  {
    assert born.Keys == db.voyages.Keys;
    if id in db.inflight && db.inflight[id].outbox.Some? {
      assert id !in db.voyages && db.inflight[id].outbox.value.0 !in db.outbox;
    }
    hide Ledger;
  }

  lemma UpdateFrame(db: Db, born: map<string, Birth>, v: Voyage)
    requires born.Keys == db.voyages.Keys
    ensures Frame(db, born, DbNext(db, UpdateVoyage(v)), born)
  {}

  lemma StatementFrame(db: Db, born: map<string, Birth>, d: DbStep)
    requires Ledger(db, born)
    ensures Frame(db, born, DbNext(db, d), ObserveBirth(born, db, d))
  {
    assert born.Keys == db.voyages.Keys;
    hide Ledger;
    match d
    case Commit(id) => CommitTxFrame(db, born, id);
    case UpdateVoyage(v) => UpdateFrame(db, born, v);
    case _ =>
  }

  lemma RowsFrame(rate: Money, db: Db, born: map<string, Birth>, db': Db, born': map<string, Birth>)
    requires Frame(db, born, db', born') && born.Keys == db.voyages.Keys
    requires Contents(db.voyages, born) && Estimates(rate, db.voyages, born)
    ensures Contents(db'.voyages, born') && Estimates(rate, db'.voyages, born')
  {
    hide BirthPrice;
    forall id | id in db'.voyages && id in born'
      ensures db'.voyages[id].version >= 1
      ensures db'.voyages[id].version == 1 ==> db'.voyages[id].content == born'[id].content
      ensures db'.voyages[id].estimate.Some? ==> BirthPrice(rate, born'[id]) == db'.voyages[id].estimate
    {
      if id in db.voyages {
        assert Moves(db.voyages[id], db'.voyages[id]);
      }
    }
  }

  lemma TopicsFrame(rate: Money, logs: Logs, born: map<string, Birth>, born': map<string, Birth>)
    requires forall id :: id in born ==> id in born' && born'[id] == born[id]
    requires Topics(rate, logs, born)
    ensures Topics(rate, logs, born')
  {
    hide BirthPrice;
  }

  lemma SettledFrame(db: Db, born: map<string, Birth>, db': Db, born': map<string, Birth>, logs: Logs,
                     cur: Cursor, v: Verdicts)
    requires Frame(db, born, db', born')
    requires VoyProgress(db.voyages, logs, cur, v)
    ensures VoyProgress(db'.voyages, logs, cur, v)
  {
    forall o | o in v.done
      ensures o < |logs.ready| && Settled(db'.voyages, logs.ready[o])
    {
      assert Settled(db.voyages, logs.ready[o]);
      if logs.ready[o].Event? {
        var id := logs.ready[o].value.id;
        assert Moves(db.voyages[id], db'.voyages[id]);
      }
    }
  }

  lemma AppliedFrame(db: Db, born: map<string, Birth>, db': Db, born': map<string, Birth>, applied: multiset<string>)
    requires Frame(db, born, db', born')
    requires AppliedOnce(db.voyages, applied)
    ensures AppliedOnce(db'.voyages, applied)
  {
    forall id: string
      ensures applied[id] == if id in db'.voyages && db'.voyages[id].estimate.Some? then 1 else 0
    {
      if id in db.voyages {
        assert Moves(db.voyages[id], db'.voyages[id]);
      }
    }
  }

  lemma StatementKeeps(w: World, d: DbStep)
    requires Inv(w)
    ensures Inv(WNext(w, Statement(d)))
  {
    if Accepted(d) {
      var db, born := w.s.db, w.h.born;
      var db', born' := DbNext(db, d), ObserveBirth(born, db, d);
      LedgerKept(db, born, d);
      StatementFrame(db, born, d);
      hide DbNext, ObserveBirth, PriceOf, BirthPrice;
      assert born.Keys == db.voyages.Keys;
      hide Ledger, Contents, Estimates, Topics, DeadLetters, EstProgress, VoyProgress, AppliedOnce;
      assert Relayed(db', w.s.logs, w.s.relay);
      FrameBirths(db, born, db', born');
      hide Relayed, Frame;
      RowsFrame(w.s.rate, db, born, db', born');
      TopicsFrame(w.s.rate, w.s.logs, born, born');
      SettledFrame(db, born, db', born', w.s.logs, w.s.voy, w.h.voy);
      AppliedFrame(db, born, db', born', w.h.applied);
    }
  }

  lemma FrameBirths(db: Db, born: map<string, Birth>, db': Db, born': map<string, Birth>)
    requires Frame(db, born, db', born')
    ensures forall id :: id in born ==> id in born' && born'[id] == born[id]
  {}

  /** The topics only grow, and nothing else about them changes. */
  ghost predicate Grown(logs: Logs, logs': Logs) {
    && logs.created <= logs'.created && logs.ready <= logs'.ready
    && logs.estimatorCommitted == logs'.estimatorCommitted
    && logs.voyageCommitted == logs'.voyageCommitted
  }

  lemma ProgressGrows(rate: Money, voyages: map<string, Row>, logs: Logs, logs': Logs, est: Cursor,
                      voy: Cursor, h: History)
    requires Grown(logs, logs')
    requires EstProgress(rate, logs, est, h.est) && VoyProgress(voyages, logs, voy, h.voy)
    ensures EstProgress(rate, logs', est, h.est) && VoyProgress(voyages, logs', voy, h.voy)
  {
    hide PriceOf;
    forall o | o in h.est.done
      ensures o < |logs'.created| && Priced(rate, logs', logs'.created[o])
    {
      assert Priced(rate, logs, logs.created[o]) && logs'.created[o] == logs.created[o];
    }
    forall o | o in h.voy.done
      ensures o < |logs'.ready| && Settled(voyages, logs'.ready[o])
    {
      assert Settled(voyages, logs.ready[o]) && logs'.ready[o] == logs.ready[o];
    }
  }

  lemma DeadLettersGrow(logs: Logs, logs': Logs)
    requires Grown(logs, logs') && DeadLetters(logs)
    requires logs'.createdDlq == logs.createdDlq && logs'.readyDlq == logs.readyDlq
    ensures DeadLetters(logs')
  {}

  lemma RelayedGrows(db: Db, logs: Logs, logs': Logs, relay: Relay)
    requires Grown(logs, logs') && Relayed(db, logs, relay)
    ensures Relayed(db, logs', relay)
  {}

  lemma SelectKeeps(w: World)
    requires Inv(w)
    ensures Inv(WNext(w, Relaying(Select)))
  {
    hide Ledger, Contents, Estimates, Topics, DeadLetters, EstProgress, VoyProgress, AppliedOnce;
    UnpublishedExact(w.s.db.outbox, 0, w.s.db.nextId);
    var ids := First(Pending(w.s.db), BATCH);
    assert forall i :: 0 <= i < |ids| ==> ids[i] == Pending(w.s.db)[i];
  }

  lemma PublishKeeps(w: World, fate: Produce)
    requires Inv(w)
    ensures Inv(WNext(w, Relaying(Publish(fate))))
  {
    var s, w' := w.s, WNext(w, Relaying(Publish(fate)));
    hide Ledger, Contents, Estimates, DeadLetters, EstProgress, VoyProgress, AppliedOnce, PriceOf, BirthPrice;
    if w'.s != s {
      var payload := s.db.outbox[s.relay.batch[0]].payload;
      PayloadKnown(s.db, w.h.born, s.relay.batch[0]);
      assert w'.s.logs == s.logs.(created := Appended(s.logs.created, Event(payload), fate));
      assert Grown(s.logs, w'.s.logs);
      ProgressGrows(s.rate, s.db.voyages, s.logs, w'.s.logs, s.est, s.voy, w.h);
      DeadLettersGrow(s.logs, w'.s.logs);
      assert Topics(s.rate, w'.s.logs, w.h.born);
      RelayedGrows(s.db, s.logs, w'.s.logs, s.relay);
      assert Relayed(w'.s.db, w'.s.logs, w'.s.relay);
    }
  }

  lemma PayloadKnown(db: Db, born: map<string, Birth>, k: nat)
    requires Ledger(db, born) && k in db.outbox
    ensures KnownVoyage(born, db.outbox[k].payload)
  {}

  lemma StampKeeps(db: Db, born: map<string, Birth>, logs: Logs, relay: Relay)
    requires Ledger(db, born) && Relayed(db, logs, relay) && relay.acked
    ensures Ledger(Stamp(db, relay.batch[0]), born)
    ensures Relayed(Stamp(db, relay.batch[0]), logs, IDLE)
    ensures Relayed(Stamp(db, relay.batch[0]), logs, Relay(relay.batch[1..], false))
  {}

  lemma MarkKeeps(w: World, fault: CallFault)
    requires Inv(w)
    ensures Inv(WNext(w, Relaying(Mark(fault))))
  {
    var s := w.s;
    hide Ledger, Contents, Estimates, Topics, DeadLetters, EstProgress, VoyProgress, AppliedOnce;
    if s.relay.acked {
      StampKeeps(s.db, w.h.born, s.logs, s.relay);
      assert Relayed(s.db, s.logs, IDLE);
      assert Relayed(s.db, s.logs, Relay(s.relay.batch[1..], false));
    }
  }

  lemma RelayingKeeps(w: World, r: RelayStep)
    requires Inv(w)
    ensures Inv(WNext(w, Relaying(r)))
  {
    match r
    case Select => SelectKeeps(w);
    case Publish(fate) => PublishKeeps(w, fate);
    case Mark(fault) => MarkKeeps(w, fault);
  }

  lemma PolluteKeeps(w: World, raw: nat)
    requires Inv(w)
    ensures Inv(WNext(w, PolluteCreated(raw)))
    ensures Inv(WNext(w, PolluteReady(raw)))
  {
    hide PriceOf, BirthPrice;
    var s, c, r := w.s, Next(w.s, PolluteCreated(raw)), Next(w.s, PolluteReady(raw));
    assert Grown(s.logs, c.logs) && Grown(s.logs, r.logs);
    ProgressGrows(s.rate, s.db.voyages, s.logs, c.logs, s.est, s.voy, w.h);
    ProgressGrows(s.rate, s.db.voyages, s.logs, r.logs, s.est, s.voy, w.h);
    DeadLettersGrow(s.logs, c.logs);
    DeadLettersGrow(s.logs, r.logs);
    RelayedGrows(s.db, s.logs, c.logs, s.relay);
    RelayedGrows(s.db, s.logs, r.logs, s.relay);
    assert Topics(s.rate, c.logs, w.h.born) && Topics(s.rate, r.logs, w.h.born);
    hide Ledger, Contents, Estimates, Topics, Relayed, DeadLetters, EstProgress, VoyProgress, AppliedOnce;
  }

  // ---- the two consumers ---------------------------------------------------------------------

  lemma FetchTracks(cur: Cursor, committed: nat, n: nat, end: nat, v: Verdicts)
    requires Tracks(cur, committed, end, v)
    ensures Tracks(Fetched(cur, n, end), committed, end, v)
  {}

  lemma HandleTracks(cur: Cursor, committed: nat, end: nat, v: Verdicts, succeeded: bool)
    requires Tracks(cur, committed, end, v) && cur.next < cur.position
    ensures Tracks(Handled(cur, succeeded), committed, end, Judged(v, cur.next, succeeded))
  {}

  lemma CommitTracks(cur: Cursor, committed: nat, end: nat, v: Verdicts)
    requires Tracks(cur, committed, end, v) && cur.committable != []
    ensures committed < CommitOffset(cur) <= cur.next
    ensures Tracks(cur.(committable := []), committed, end, v)
    ensures Tracks(cur.(committable := []), CommitOffset(cur), end, v)
  {}

  lemma ResumeTracks(cur: Cursor, committed: nat, end: nat, v: Verdicts)
    requires Tracks(cur, committed, end, v)
    ensures Tracks(Resume(committed), committed, end, v.(failed := {}))
  {}

  /** Handling a record leaves the topics grown, keeps what holds of them, and on success leaves
      the record in no need of more work. */
  lemma EstEffectKeeps(rate: Money, logs: Logs, born: map<string, Birth>, o: nat, fate: EstFate)
    requires o < |logs.created| && Topics(rate, logs, born) && DeadLetters(logs)
    ensures var (logs', succeeded) := EstEffect(rate, logs, logs.created[o], fate);
            && Grown(logs, logs') && logs'.created == logs.created
            && Topics(rate, logs', born) && DeadLetters(logs')
            && (succeeded ==> Priced(rate, logs', logs.created[o]))
  {
    hide PriceOf;
    var r := logs.created[o];
    var (logs', succeeded) := EstEffect(rate, logs, r, fate);
    if r.Event? && PriceOf(r.value.content, rate).Ok? {
      var er := BuildEstimateReady(r.value, PriceOf(r.value.content, rate).value);
      assert KnownVoyage(born, r.value);
      assert KnownEstimate(rate, born, er);
    }
  }

  /** Storing an offset leaves everything that does not speak of that offset. */
  lemma CommitFrame(w: World, logs': Logs)
    requires Inv(w)
    requires logs' == w.s.logs.(estimatorCommitted := logs'.estimatorCommitted,
                                voyageCommitted := logs'.voyageCommitted)
    ensures Topics(w.s.rate, logs', w.h.born) && Relayed(w.s.db, logs', w.s.relay) && DeadLetters(logs')
    ensures Tracks(w.s.est, logs'.estimatorCommitted, |logs'.created|, w.h.est) ==>
              EstProgress(w.s.rate, logs', w.s.est, w.h.est)
    ensures Tracks(w.s.voy, logs'.voyageCommitted, |logs'.ready|, w.h.voy) ==>
              VoyProgress(w.s.db.voyages, logs', w.s.voy, w.h.voy)
  {
    hide PriceOf, BirthPrice, Tracks, Ledger, Contents, Estimates, AppliedOnce;
    assert forall o :: o in w.h.est.done ==> Priced(w.s.rate, w.s.logs, w.s.logs.created[o]);
  }

  lemma EstHandleKeeps(w: World, fate: EstFate)
    requires Inv(w)
    ensures Inv(WNext(w, Estimating(HandleStep(fate))))
  {
    var s, w' := w.s, WNext(w, Estimating(HandleStep(fate)));
    var o := s.est.next;
    if o < s.est.position {
      EstAt(s.rate, s.logs, s.est, w.h.est);
      hide Ledger, Contents, Estimates, Topics, Relayed, DeadLetters, EstProgress, VoyProgress, AppliedOnce;
      hide PriceOf, EstEffect, Tracks;
      EstEffectKeeps(s.rate, s.logs, w.h.born, o, fate);
      var (logs', succeeded) := EstEffect(s.rate, s.logs, s.logs.created[o], fate);
      ProgressGrows(s.rate, s.db.voyages, s.logs, logs', s.est, s.voy, w.h);
      RelayedGrows(s.db, s.logs, logs', s.relay);
      EstHandled(s.rate, logs', s.est, w.h.est, succeeded);
    }
  }

  lemma EstAt(rate: Money, logs: Logs, cur: Cursor, v: Verdicts)
    requires EstProgress(rate, logs, cur, v)
    ensures cur.next <= cur.position <= |logs.created|
  {}

  lemma EstHandled(rate: Money, logs: Logs, cur: Cursor, v: Verdicts, succeeded: bool)
    requires EstProgress(rate, logs, cur, v) && cur.next < cur.position <= |logs.created|
    requires succeeded ==> Priced(rate, logs, logs.created[cur.next])
    ensures EstProgress(rate, logs, Handled(cur, succeeded), Judged(v, cur.next, succeeded))
  {
    HandleTracks(cur, logs.estimatorCommitted, |logs.created|, v, succeeded);
    hide PriceOf;
  }

  lemma EstCommitKeeps(w: World, stored: bool)
    requires Inv(w)
    ensures Inv(WNext(w, Estimating(CommitStep(stored))))
  {
    var s := w.s;
    if s.est.next == s.est.position && s.est.committable != [] {
      var cur := s.est.(committable := []);
      var logs' := if stored then s.logs.(estimatorCommitted := CommitOffset(s.est)) else s.logs;
      CommitTracks(s.est, s.logs.estimatorCommitted, |s.logs.created|, w.h.est);
      assert Inv(w.(s := s.(est := cur)));
      CommitFrame(w.(s := s.(est := cur)), logs');
      hide Ledger, Contents, Estimates, Topics, Relayed, DeadLetters, AppliedOnce;
    }
  }

  lemma EstimatingKeeps(w: World, e: EstStep)
    requires Inv(w)
    ensures Inv(WNext(w, Estimating(e)))
  {
    var s := w.s;
    match e {
      case FetchStep(n) =>
        FetchTracks(s.est, s.logs.estimatorCommitted, n, |s.logs.created|, w.h.est);
      case HandleStep(fate) =>
        EstHandleKeeps(w, fate);
      case CommitStep(stored) =>
        EstCommitKeeps(w, stored);
      case RestartStep =>
        ResumeTracks(s.est, s.logs.estimatorCommitted, |s.logs.created|, w.h.est);
    }
  }

  /** What applying estimates may do to the rows: fill in an estimate that was missing. */
  ghost predicate Filled(voyages: map<string, Row>, voyages': map<string, Row>) {
    && voyages'.Keys == voyages.Keys
    && forall id :: id in voyages ==>
         || voyages'[id] == voyages[id]
         || (voyages[id].estimate.None? && voyages'[id] == voyages[id].(estimate := voyages'[id].estimate))
  }

  /** Applying a known estimate only ever fills in a missing one: a second application of any
      record for the voyage finds the same amount and changes nothing. */
  lemma UpsertFills(rate: Money, voyages: map<string, Row>, born: map<string, Birth>, er: EstimateReady)
    requires born.Keys == voyages.Keys && KnownEstimate(rate, born, er)
    requires Contents(voyages, born) && Estimates(rate, voyages, born)
    ensures var (voyages', hit) := Upsert(voyages, er.id, er.version, er.amountMinor);
            && Filled(voyages, voyages')
            && Contents(voyages', born) && Estimates(rate, voyages', born)
            && Settled(voyages', Event(er))
            && (hit ==> voyages[er.id].estimate.None? && voyages'[er.id].estimate.Some?)
            && (forall id :: id in voyages && (!hit || id != er.id) ==> voyages'[id] == voyages[id])
  {
    hide BirthPrice;
    assert er.id in voyages;
    assert voyages[er.id].estimate.Some? ==> voyages[er.id].estimate == Some(er.amountMinor);
  }

  lemma FilledFrame(voyages: map<string, Row>, voyages': map<string, Row>, logs: Logs, cur: Cursor, v: Verdicts)
    requires Filled(voyages, voyages') && VoyProgress(voyages, logs, cur, v)
    ensures VoyProgress(voyages', logs, cur, v)
  {
    forall o | o in v.done
      ensures o < |logs.ready| && Settled(voyages', logs.ready[o])
    {
      assert Settled(voyages, logs.ready[o]);
    }
  }

  /** Handling a record keeps the rows right, and on success leaves it in no need of more work. */
  lemma VoyEffectKeeps(rate: Money, voyages: map<string, Row>, logs: Logs, born: map<string, Birth>, o: nat,
                       fate: VoyFate)
    requires o < |logs.ready| && Topics(rate, logs, born) && DeadLetters(logs) && born.Keys == voyages.Keys
    requires Contents(voyages, born) && Estimates(rate, voyages, born)
    ensures var (voyages', logs', succeeded) := VoyEffect(voyages, logs, logs.ready[o], fate);
            && Filled(voyages, voyages') && Contents(voyages', born) && Estimates(rate, voyages', born)
            && Grown(logs, logs') && logs'.ready == logs.ready && logs'.created == logs.created
            && DeadLetters(logs')
            && (succeeded ==> Settled(voyages', logs.ready[o]))
  {
    hide BirthPrice;
    var r := logs.ready[o];
    if r.Event? {
      UpsertFills(rate, voyages, born, r.value);
    }
  }

  lemma AppliedCounts(rate: Money, v: VoyView, born: map<string, Birth>, applied: multiset<string>, fate: VoyFate)
    requires v.cur.next < v.cur.position <= |v.logs.ready|
    requires Topics(rate, v.logs, born) && born.Keys == v.voyages.Keys
    requires Contents(v.voyages, born) && Estimates(rate, v.voyages, born)
    requires AppliedOnce(v.voyages, applied)
    ensures AppliedOnce(VoyEffect(v.voyages, v.logs, v.logs.ready[v.cur.next], fate).0,
                        applied + AppliedTo(v, HandleStep(fate)))
  {
    hide BirthPrice;
    var r := v.logs.ready[v.cur.next];
    if r.Event? {
      UpsertFills(rate, v.voyages, born, r.value);
    }
  }

  lemma VoyHandled(voyages: map<string, Row>, logs: Logs, cur: Cursor, v: Verdicts, succeeded: bool)
    requires VoyProgress(voyages, logs, cur, v) && cur.next < cur.position
    requires succeeded ==> Settled(voyages, logs.ready[cur.next])
    ensures VoyProgress(voyages, logs, Handled(cur, succeeded), Judged(v, cur.next, succeeded))
  {
    HandleTracks(cur, logs.voyageCommitted, |logs.ready|, v, succeeded);
  }

  lemma FilledLedger(db: Db, voyages': map<string, Row>, born: map<string, Birth>, logs: Logs, relay: Relay)
    requires Filled(db.voyages, voyages') && Ledger(db, born) && Relayed(db, logs, relay)
    ensures Ledger(db.(voyages := voyages'), born) && Relayed(db.(voyages := voyages'), logs, relay)
  {}

  lemma VoyHandleKeeps(w: World, fate: VoyFate)
    requires Inv(w)
    ensures Inv(WNext(w, Applying(HandleStep(fate))))
  {
    var s, h := w.s, w.h;
    var o := s.voy.next;
    assert h.born.Keys == s.db.voyages.Keys && s.voy.position <= |s.logs.ready|;
    hide Ledger, Contents, Estimates, Relayed, DeadLetters, EstProgress, VoyProgress, AppliedOnce, PriceOf, BirthPrice;
    if o < s.voy.position {
      var (voyages', logs', succeeded) := VoyEffect(s.db.voyages, s.logs, s.logs.ready[o], fate);
      VoyEffectKeeps(s.rate, s.db.voyages, s.logs, h.born, o, fate);
      AppliedCounts(s.rate, VoyView(s.db.voyages, s.logs, s.voy), h.born, h.applied, fate);
      hide VoyEffect, AppliedTo, Filled;
      assert Topics(s.rate, logs', h.born);
      hide Topics;
      ProgressGrows(s.rate, s.db.voyages, s.logs, logs', s.est, s.voy, h);
      FilledFrame(s.db.voyages, voyages', logs', s.voy, h.voy);
      RelayedGrows(s.db, s.logs, logs', s.relay);
      VoyHandled(voyages', logs', s.voy, h.voy, succeeded);
      FilledLedger(s.db, voyages', h.born, logs', s.relay);
    }
  }

  lemma VoyCommitKeeps(w: World, stored: bool)
    requires Inv(w)
    ensures Inv(WNext(w, Applying(CommitStep(stored))))
  {
    var s := w.s;
    if s.voy.next == s.voy.position && s.voy.committable != [] {
      var cur := s.voy.(committable := []);
      var logs' := if stored then s.logs.(voyageCommitted := CommitOffset(s.voy)) else s.logs;
      CommitTracks(s.voy, s.logs.voyageCommitted, |s.logs.ready|, w.h.voy);
      assert Inv(w.(s := s.(voy := cur)));
      CommitFrame(w.(s := s.(voy := cur)), logs');
      hide Ledger, Contents, Estimates, Topics, Relayed, DeadLetters, AppliedOnce;
    }
  }

  lemma ApplyingKeeps(w: World, y: VoyStep)
    requires Inv(w)
    ensures Inv(WNext(w, Applying(y)))
  {
    var s := w.s;
    match y {
      case FetchStep(n) =>
        FetchTracks(s.voy, s.logs.voyageCommitted, n, |s.logs.ready|, w.h.voy);
      case HandleStep(fate) =>
        VoyHandleKeeps(w, fate);
      case CommitStep(stored) =>
        VoyCommitKeeps(w, stored);
      case RestartStep =>
        ResumeTracks(s.voy, s.logs.voyageCommitted, |s.logs.ready|, w.h.voy);
    }
  }

  lemma CrashKeeps(w: World)
    requires Inv(w)
    ensures Inv(WNext(w, VoyageServiceCrash))
  {
    ResumeTracks(w.s.voy, w.s.logs.voyageCommitted, |w.s.logs.ready|, w.h.voy);
  }

  /** Every step keeps the invariant. */
  lemma StepKeeps(w: World, step: Step)
    requires Inv(w)
    ensures Inv(WNext(w, step))
  {
    hide Inv;
    hide WNext;
    match step
    case Statement(d) => StatementKeeps(w, d);
    case Relaying(r) => RelayingKeeps(w, r);
    case Estimating(e) => EstimatingKeeps(w, e);
    case Applying(y) => ApplyingKeeps(w, y);
    case VoyageServiceCrash => CrashKeeps(w);
    case PolluteCreated(raw) => PolluteKeeps(w, raw);
    case PolluteReady(raw) => PolluteKeeps(w, raw);
  }

  /** Every run keeps the invariant. */
  lemma {:induction false} RunKeeps(w: World, steps: seq<Step>)
    requires Inv(w)
    ensures Inv(WRun(w, steps))
    decreases |steps|
  {
    hide Inv;
    hide WNext;
    if steps != [] {
      RunKeeps(w, steps[..|steps| - 1]);
      StepKeeps(WRun(w, steps[..|steps| - 1]), steps[|steps| - 1]);
    }
  }

  lemma ReachableInv(rate: Money, steps: seq<Step>)
    ensures Inv(WRun(Start(rate), steps))
    ensures WRun(Start(rate), steps).s == Run(Initial(rate), steps)
  {
    StartInv(rate);
    RunKeeps(Start(rate), steps);
    WRunState(Start(rate), steps);
  }
}
