/** services/voyage/adapters/postgres: the tables, the statements that change them, and the
    repository that issues those statements. */
module Storage {
  import opened Int64
  import opened Wrappers
  import opened Voyages

  datatype Row = Row(content: Content, version: int64, estimate: Option<int64>)

  datatype OutboxRow = OutboxRow(payload: VoyageCreated, published: bool)

  /** An open transaction of Create: the inserted voyage, and its outbox row once inserted. The
      unique index lets at most one open transaction hold a given client_request_id. */
  datatype Tx = Tx(content: Content, outbox: Option<(nat, VoyageCreated)>)

  /** The committed tables, the open transactions, and the outbox identity sequence. */
  datatype Db = Db(voyages: map<string, Row>, inflight: map<string, Tx>, outbox: map<nat, OutboxRow>, nextId: nat)

  const EMPTY_DB := Db(map[], map[], map[], 0)

  datatype DbStep =
    | InsertVoyage(v: Voyage)
    | InsertOutbox(id: string)
    | Commit(id: string)
    | Rollback(id: string)
    | UpdateVoyage(v: Voyage)

  function ToVoyage(id: string, row: Row): Voyage {
    Voyage(id, row.content, row.version, if row.estimate.Some? then row.estimate.value else 0)
  }

  /** The voyage shows the row; a missing estimate reads as 0. */
  predicate IsRow(v: Voyage, id: string, row: Row) {
    && v.id == id && v.content == row.content && v.version == row.version
    && (row.estimate == Some(v.estimateMinor) || (row.estimate == None && v.estimateMinor == 0))
  }

  lemma ToVoyageShows(id: string, row: Row, v: Voyage)
    ensures IsRow(v, id, row) <==> v == ToVoyage(id, row)
  {}

  /** The UPDATE of Update: a strictly higher version replaces content and version, and leaves
      the estimate column alone. */
  function HigherVersionRow(row: Row, v: Voyage): Row {
    if row.version < v.version then row.(content := v.content, version := v.version) else row
  }

  /** One statement. A statement that finds nothing to do changes nothing; the identity sequence
      is not transactional, so a rolled-back insert leaves a gap. */
  function DbNext(db: Db, step: DbStep): Db {
    match step
    case InsertVoyage(v) =>
      if v.id in db.voyages || v.id in db.inflight then db
      else db.(inflight := db.inflight[v.id := Tx(v.content, None)])
    case InsertOutbox(id) =>
      if id in db.inflight && db.inflight[id].outbox.None? then
        var payload := ToVoyageCreated(Voyage(id, db.inflight[id].content, 1, 0));
        db.(inflight := db.inflight[id := db.inflight[id].(outbox := Some((db.nextId, payload)))],
            nextId := db.nextId + 1)
      else db
    case Commit(id) =>
      if id in db.inflight && db.inflight[id].outbox.Some? then
        var tx := db.inflight[id];
        db.(voyages := db.voyages[id := Row(tx.content, 1, None)],
            outbox := db.outbox[tx.outbox.value.0 := OutboxRow(tx.outbox.value.1, false)],
            inflight := db.inflight - {id})
      else db
    case Rollback(id) =>
      db.(inflight := db.inflight - {id})
    case UpdateVoyage(v) =>
      if v.id in db.voyages then db.(voyages := db.voyages[v.id := HigherVersionRow(db.voyages[v.id], v)])
      else db
  }

  function DbRun(db: Db, steps: seq<DbStep>): Db
    decreases |steps|
  {
    if steps == [] then db
    else DbNext(DbRun(db, steps[..|steps| - 1]), steps[|steps| - 1])
  }

  lemma DbRunNothing(db: Db)
    ensures DbRun(db, []) == db
  {}

  lemma DbRunTwo(db: Db, a: DbStep, b: DbStep)
    ensures DbRun(db, [a, b]) == DbNext(DbNext(db, a), b)
  {
    assert [a, b][..1] == [a] && [a][..0] == [];
    assert DbRun(db, [a]) == DbNext(db, a);
  }

  lemma DbRunThree(db: Db, a: DbStep, b: DbStep, c: DbStep)
    ensures DbRun(db, [a, b, c]) == DbNext(DbNext(DbNext(db, a), b), c)
  {
    assert [a, b, c][..2] == [a, b];
    DbRunTwo(db, a, b);
  }

  /** The guarded UPDATE of UpsertEstimate, and whether it returned a row. */
  function Upsert(voyages: map<string, Row>, id: string, version: int64, amount: int64): (map<string, Row>, bool) {
    if id in voyages && voyages[id].version == version && voyages[id].estimate != Some(amount)
    then (voyages[id := voyages[id].(estimate := Some(amount))], true)
    else (voyages, false)
  }

  // ---- the repository ---------------------------------------------------------------------

  datatype Error = NotFound | Failed

  /** Where a call to Create meets an infrastructure error. After CommitUnknown the transaction
      is committed although the call reports a failure. */
  datatype CreateFault =
    | NoFault | BeginFails | InsertFails | EncodeFails | OutboxFails | CommitFails | CommitUnknown | GetFails

  datatype CallFault = CallOk | CallLost | CallUnknown

  /** The statements of one call to Create, in order. */
  function CreateTrace(db: Db, v: Voyage, fault: CreateFault): seq<DbStep> {
    if fault.BeginFails? || fault.InsertFails? || v.id in db.voyages then []
    else match fault
      case EncodeFails => [InsertVoyage(v), Rollback(v.id)]
      case OutboxFails => [InsertVoyage(v), Rollback(v.id)]
      case CommitFails => [InsertVoyage(v), InsertOutbox(v.id), Rollback(v.id)]
      case _ => [InsertVoyage(v), InsertOutbox(v.id), Commit(v.id)]
  }

  /** The same, one statement at a time. */
  lemma CreateSteps(db: Db, v: Voyage, fault: CreateFault)
    ensures var inserted := DbNext(db, InsertVoyage(v));
            var staged := DbNext(inserted, InsertOutbox(v.id));
            DbRun(db, CreateTrace(db, v, fault))
            == if fault.BeginFails? || fault.InsertFails? || v.id in db.voyages then db
               else if fault.EncodeFails? || fault.OutboxFails? then DbNext(inserted, Rollback(v.id))
               else if fault.CommitFails? then DbNext(staged, Rollback(v.id))
               else DbNext(staged, Commit(v.id))
  {
    assert DbRun(db, []) == db;
    DbRunTwo(db, InsertVoyage(v), Rollback(v.id));
    DbRunThree(db, InsertVoyage(v), InsertOutbox(v.id), Rollback(v.id));
    DbRunThree(db, InsertVoyage(v), InsertOutbox(v.id), Commit(v.id));
    hide DbRun, DbNext;
  }

  /** How an open transaction ends that another insert of its key is waiting for. */
  datatype Rival = RivalCommits | RivalRollsBack

  /** The tables once nobody holds the key any more, which is when an insert of it goes ahead. */
  function Waited(db: Db, id: string, rival: Rival): (after: Db)
    ensures id !in after.inflight
    ensures id !in db.inflight ==> after == db
  {
    if id !in db.inflight then db
    else match rival
      case RivalCommits => DbNext(DbNext(db, InsertOutbox(id)), Commit(id))
      case RivalRollsBack => DbNext(db, Rollback(id))
  }

  /** If it commits, the voyage it inserted is stored with its unstamped outbox row, under the id it drew or
      the next one; if it rolls back, nothing is. */
  lemma WaitedIs(db: Db, id: string, rival: Rival)
    requires id in db.inflight
    ensures var after, tx := Waited(db, id, rival), db.inflight[id];
            && after.inflight == db.inflight - {id}
            && match rival
               case RivalRollsBack => after.voyages == db.voyages && after.outbox == db.outbox
               case RivalCommits =>
                 var row := if tx.outbox.Some? then tx.outbox.value else (db.nextId, VoyageCreated(id, tx.content, 1));
                 && after.voyages == db.voyages[id := Row(tx.content, 1, None)]
                 && after.outbox == db.outbox[row.0 := OutboxRow(row.1, false)]
  {
    if rival.RivalCommits? && db.inflight[id].outbox.None? {
      var drawn := DbNext(db, InsertOutbox(id));
      assert drawn.inflight - {id} == db.inflight - {id};
    }
  }

  /** Whether this call is the one that inserts the voyage. */
  predicate Inserts(db: Db, v: Voyage, fault: CreateFault) {
    v.id !in db.voyages && (fault.NoFault? || fault.CommitUnknown? || fault.GetFails?)
  }

  /** An insert that commits: both rows appear and the sequence advances. */
  lemma CommittedRun(db: Db, v: Voyage)
    requires v.id !in db.voyages && v.id !in db.inflight
    ensures DbRun(db, [InsertVoyage(v), InsertOutbox(v.id), Commit(v.id)])
            == db.(voyages := db.voyages[v.id := Row(v.content, 1, None)],
                   outbox := db.outbox[db.nextId := OutboxRow(VoyageCreated(v.id, v.content, 1), false)],
                   nextId := db.nextId + 1)
  {
    hide DbRun;
    DbRunThree(db, InsertVoyage(v), InsertOutbox(v.id), Commit(v.id));
    var waiting := db.inflight[v.id := Tx(v.content, Some((db.nextId, VoyageCreated(v.id, v.content, 1))))];
    assert DbNext(DbNext(db, InsertVoyage(v)), InsertOutbox(v.id)).inflight == waiting;
    assert waiting - {v.id} == db.inflight;
  }

  /** An insert that rolls back leaves nothing behind, apart from a gap in the sequence. */
  lemma RolledBackRun(db: Db, v: Voyage)
    requires v.id !in db.voyages && v.id !in db.inflight
    ensures DbRun(db, [InsertVoyage(v), Rollback(v.id)]) == db
    ensures DbRun(db, [InsertVoyage(v), InsertOutbox(v.id), Rollback(v.id)]) == db.(nextId := db.nextId + 1)
  {
    hide DbRun;
    DbRunTwo(db, InsertVoyage(v), Rollback(v.id));
    DbRunThree(db, InsertVoyage(v), InsertOutbox(v.id), Rollback(v.id));
    assert DbNext(db, InsertVoyage(v)).inflight - {v.id} == db.inflight;
    assert DbNext(DbNext(db, InsertVoyage(v)), InsertOutbox(v.id)).inflight - {v.id} == db.inflight;
  }

  /** The statements of a call store the requested content at version 1 with one unstamped outbox row
      that carries it, or leave both tables as they were; a duplicate never overwrites. */
  lemma CreateAllOrNothing(db: Db, v: Voyage, fault: CreateFault)
    requires v.id !in db.inflight
    ensures var after := DbRun(db, CreateTrace(db, v, fault));
            && after.inflight == db.inflight
            && (v.id !in db.voyages ==> (v.id in after.voyages <==> Inserts(db, v, fault)))
            && if Inserts(db, v, fault)
               then after.voyages == db.voyages[v.id := Row(v.content, 1, None)]
                    && after.outbox == db.outbox[db.nextId := OutboxRow(VoyageCreated(v.id, v.content, 1), false)]
               else after.voyages == db.voyages && after.outbox == db.outbox
  {
    hide DbRun, DbNext;
    DbRunNothing(db);
    if v.id !in db.voyages {
      CommittedRun(db, v);
      RolledBackRun(db, v);
    }
  }

  /** The tables after an Update call. */
  function Updated(db: Db, v: Voyage, fault: CallFault, between: seq<DbStep>): Db {
    match fault
    case CallLost => db
    case CallUnknown => DbNext(db, UpdateVoyage(v))
    case CallOk => DbRun(DbNext(db, UpdateVoyage(v)), between)
  }

  /** No statement takes a stored voyage away, inserts it a second time, or lowers its version. */
  lemma {:induction false} VersionsRise(db: Db, steps: seq<DbStep>, id: string)
    requires id in db.voyages && id !in db.inflight
    ensures var db' := DbRun(db, steps);
            id in db'.voyages && id !in db'.inflight && db'.voyages[id].version >= db.voyages[id].version
    decreases |steps|
  {
    if steps != [] {
      VersionsRise(db, steps[..|steps| - 1], id);
    }
  }

  /** Whether the caller gets an error. The existing row is read back on a duplicate only. */
  predicate CreateFails(db: Db, v: Voyage, fault: CreateFault) {
    || fault.BeginFails? || fault.InsertFails?
    || (if v.id in db.voyages then fault.GetFails? else !fault.NoFault? && !fault.GetFails?)
  }

  /** Postgres as the repository sees it. */
  class Postgres {
    var voyages: map<string, Row>
    var inflight: map<string, Tx>
    var outbox: map<nat, OutboxRow>
    var nextId: nat

    function Tables(): Db
      reads this
    {
      Db(voyages, inflight, outbox, nextId)
    }

    constructor ()
      ensures Tables() == EMPTY_DB
    {
      voyages, inflight, outbox, nextId := map[], map[], map[], 0;
    }

    /** Statements of other sessions. */
    method Elsewhere(steps: seq<DbStep>)
      modifies this
      ensures Tables() == DbRun(old(Tables()), steps)
    {
      var db := DbRun(Tables(), steps);
      voyages, inflight, outbox, nextId := db.voyages, db.inflight, db.outbox, db.nextId;
    }

    /** What an insert of a key waits for: the end of the transaction that holds it. */
    method AwaitKey(id: string, rival: Rival)
      modifies this
      ensures Tables() == Waited(old(Tables()), id, rival)
    {
      if id !in inflight {
        return;
      }
      match rival {
        case RivalCommits =>
          if inflight[id].outbox.None? {
            InsertOutboxRow(id, VoyageCreated(id, inflight[id].content, 1));
          }
          CommitTx(id);
        case RivalRollsBack =>
          RollbackTx(id);
      }
    }

    /** INSERT INTO voyages ... ON CONFLICT DO NOTHING RETURNING. */
    method InsertVoyageRow(v: Voyage) returns (created: Option<Voyage>)
      requires v.id !in inflight
      modifies `inflight
      ensures Tables() == DbNext(old(Tables()), InsertVoyage(v))
      ensures created == if v.id in voyages then None else Some(Voyage(v.id, v.content, 1, 0))
    {
      if v.id in voyages {
        created := None;
      } else {
        inflight := inflight[v.id := Tx(v.content, None)];
        created := Some(Voyage(v.id, v.content, 1, 0));
      }
    }

    /** INSERT INTO outbox, inside the transaction. */
    method InsertOutboxRow(id: string, payload: VoyageCreated)
      requires id in inflight && inflight[id].outbox.None?
      requires payload == VoyageCreated(id, inflight[id].content, 1)
      modifies `inflight, `nextId
      ensures Tables() == DbNext(old(Tables()), InsertOutbox(id))
    {
      inflight := inflight[id := inflight[id].(outbox := Some((nextId, payload)))];
      nextId := nextId + 1;
    }

    method CommitTx(id: string)
      requires id in inflight && inflight[id].outbox.Some?
      modifies this
      ensures Tables() == DbNext(old(Tables()), Commit(id))
    {
      var tx := inflight[id];
      voyages := voyages[id := Row(tx.content, 1, None)];
      outbox := outbox[tx.outbox.value.0 := OutboxRow(tx.outbox.value.1, false)];
      inflight := inflight - {id};
    }

    /** Rolling back a closed transaction does nothing. */
    method RollbackTx(id: string)
      modifies `inflight
      ensures Tables() == DbNext(old(Tables()), Rollback(id))
    {
      inflight := inflight - {id};
    }
  }

  /** The repository over one Postgres. */
  class Repository {
    const pg: Postgres

    constructor (pg: Postgres)
      ensures this.pg == pg
    {
      this.pg := pg;
    }

    /** One transaction for both rows; a duplicate gets the stored voyage. The insert waits for an open
        transaction on the same key. */
    method Create(v: Voyage, rival: Rival, fault: CreateFault) returns (r: Result<Voyage, Error>)
      modifies pg
      ensures var db := Waited(old(pg.Tables()), v.id, rival);
              && pg.Tables() == DbRun(db, CreateTrace(db, v, fault))
              && pg.inflight == db.inflight
              // the voyage row and its outbox row appear together or not at all
              && (if v.id !in db.voyages && (fault.NoFault? || fault.CommitUnknown? || fault.GetFails?) then
                    && pg.voyages == db.voyages[v.id := Row(v.content, 1, None)]
                    && pg.outbox == db.outbox[db.nextId := OutboxRow(VoyageCreated(v.id, v.content, 1), false)]
                  else
                    pg.voyages == db.voyages && pg.outbox == db.outbox)
              // a row comes back, the one just inserted or the one found, unless something failed on the way
              && (r == Err(Failed) <==>
                    || fault.BeginFails? || fault.InsertFails?
                    || (v.id in db.voyages && fault.GetFails?)
                    || (v.id !in db.voyages && (fault.EncodeFails? || fault.OutboxFails? || fault.CommitFails?
                                                || fault.CommitUnknown?)))
              && (r.Ok? <==> !CreateFails(db, v, fault))
      ensures r.Ok? ==> v.id in pg.voyages && IsRow(r.value, v.id, pg.voyages[v.id])
      ensures r.Err? ==> r.error == Failed
    {
      pg.AwaitKey(v.id, rival);
      CreateAllOrNothing(pg.Tables(), v, fault);
      hide DbRun, CreateTrace, Waited;
      r := CreateAlone(v, fault);
    }

    /** The call when no open transaction holds the key. */
    method CreateAlone(v: Voyage, fault: CreateFault) returns (r: Result<Voyage, Error>)
      requires v.id !in pg.inflight
      modifies pg
      ensures pg.Tables() == DbRun(old(pg.Tables()), CreateTrace(old(pg.Tables()), v, fault))
      ensures r.Ok? <==> !CreateFails(old(pg.Tables()), v, fault)
      ensures r.Ok? ==> v.id in pg.voyages && IsRow(r.value, v.id, pg.voyages[v.id])
      ensures r.Err? ==> r.error == Failed
    {
      ghost var before := pg.Tables();
      CreateSteps(before, v, fault);
      hide DbRun, CreateTrace;
      if fault.BeginFails? || fault.InsertFails? {
        return Err(Failed);
      }
      var created := pg.InsertVoyageRow(v);
      if created.None? {
        pg.RollbackTx(v.id);
        assert pg.Tables() == before;
        r := Get(v.id, fault.GetFails?);
        return;
      }
      if fault.EncodeFails? || fault.OutboxFails? {
        pg.RollbackTx(v.id);
        return Err(Failed);
      }
      pg.InsertOutboxRow(v.id, ToVoyageCreated(created.value));
      if fault.CommitFails? {
        pg.RollbackTx(v.id);
        return Err(Failed);
      }
      pg.CommitTx(v.id);
      if fault.CommitUnknown? {
        return Err(Failed);
      }
      r := Ok(created.value);
    }

    /** The UPDATE and the SELECT that reads back are separate statements: whatever is in `between` runs
        between them. */
    method Update(v: Voyage, fault: CallFault, between: seq<DbStep>, getFails: bool) returns (r: Result<Voyage, Error>)
      modifies pg
      ensures pg.Tables() == Updated(old(pg.Tables()), v, fault, between)
      ensures r == if !fault.CallOk? || getFails then Err(Failed)
                   else if v.id in pg.voyages then Ok(ToVoyage(v.id, pg.voyages[v.id])) else Err(NotFound)
      ensures r.Ok? ==> v.id in pg.voyages && IsRow(r.value, v.id, pg.voyages[v.id])
      // the row is replaced by a strictly newer request, which leaves the estimate, and by nothing else
      ensures fault.CallUnknown? || (fault.CallOk? && between == []) ==>
                pg.voyages == if v.id in old(pg.voyages) && old(pg.voyages)[v.id].version < v.version
                              then old(pg.voyages)[v.id := Row(v.content, v.version, old(pg.voyages)[v.id].estimate)]
                              else old(pg.voyages)
      ensures r.Ok? && v.id in old(pg.voyages) && v.id !in old(pg.inflight) ==> r.value.version >= v.version
    {
      if fault.CallLost? {
        return Err(Failed);
      }
      if v.id in pg.voyages && pg.voyages[v.id].version < v.version {
        pg.voyages := pg.voyages[v.id := pg.voyages[v.id].(content := v.content, version := v.version)];
      }
      assert v.id in old(pg.voyages) ==>
               pg.voyages == old(pg.voyages)[v.id := HigherVersionRow(old(pg.voyages[v.id]), v)];
      if fault.CallUnknown? {
        return Err(Failed);
      }
      if v.id in pg.voyages && v.id !in pg.inflight {
        VersionsRise(pg.Tables(), between, v.id);
      }
      pg.Elsewhere(between);
      r := Get(v.id, getFails);
    }

    method Get(id: string, fails: bool) returns (r: Result<Voyage, Error>)
      ensures r == if fails then Err(Failed)
                   else if id in pg.voyages then Ok(ToVoyage(id, pg.voyages[id])) else Err(NotFound)
      ensures r.Ok? ==> id in pg.voyages && IsRow(r.value, id, pg.voyages[id])
    {
      if fails {
        return Err(Failed);
      }
      if id !in pg.voyages {
        return Err(NotFound);
      }
      r := Ok(ToVoyage(id, pg.voyages[id]));
    }

    /** Reports applied = true just when the guarded UPDATE changed the row. */
    method UpsertEstimate(id: string, version: int64, amount: int64, fault: CallFault) returns (r: Result<bool, Error>)
      modifies pg`voyages
      ensures fault.CallLost? ==> pg.voyages == old(pg.voyages)
      ensures !fault.CallLost? ==> pg.voyages == Upsert(old(pg.voyages), id, version, amount).0
      ensures r == if fault.CallOk? then Ok(Upsert(old(pg.voyages), id, version, amount).1) else Err(Failed)
      ensures r == Ok(true) <==> fault.CallOk? && pg.voyages != old(pg.voyages)
      // only the version asked for is written, and only with another amount than it has
      ensures pg.voyages == if !fault.CallLost? && id in old(pg.voyages) && old(pg.voyages)[id].version == version
                               && old(pg.voyages)[id].estimate != Some(amount)
                            then old(pg.voyages)[id := old(pg.voyages)[id].(estimate := Some(amount))]
                            else old(pg.voyages)
    {
      if fault.CallLost? {
        return Err(Failed);
      }
      var applied := false;
      if id in pg.voyages && pg.voyages[id].version == version && pg.voyages[id].estimate != Some(amount) {
        pg.voyages := pg.voyages[id := pg.voyages[id].(estimate := Some(amount))];
        assert pg.voyages[id] != old(pg.voyages[id]);
        applied := true;
      }
      r := if fault.CallUnknown? then Err(Failed) else Ok(applied);
    }
  }
}
