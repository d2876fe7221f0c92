/** Whole runs of the offline client against the voyage service: enqueues and removals whose file effects
    complete or stop anywhere, sends that are lost, acknowledged, or applied and reported as failed, crashes
    followed by a cold reopen, and whatever other clients and the estimate pipeline do to the tables
    meanwhile. The calls of one client do not overlap. */
module SyncRuns {
  import opened Int64
  import opened Wrappers
  import opened Money
  import opened Voyages
  import opened Storage
  import opened Server
  import opened Merge
  import opened JsonlText
  import opened QueueStore
  import opened Syncing
  import opened Delivery
  import opened QueueRuns

  /** The service's tables, the queue file with the map in memory, and the acknowledged operation whose
      removal is due. */
  datatype Client = Client(rate: Money, codec: Codec, db: Db, q: Queue, due: Option<string>)

  datatype ClientStep =
    | Enqueue(op: Operation, io: Io)
    | Try(id: string, a: Attempt)
    | Remove(io: Io)
    | Crash(opens: bool)
    | Elsewhere(d: DbStep)
    | ApplyEstimate(id: string, version: int64, amount: int64)

  predicate Ready(c: Client) { c.q.running && c.due.None? }

  /** One step; a step that is not enabled changes nothing. After a failed file effect the client can only
      be reopened. */
  ghost function ClientNext(c: Client, step: ClientStep): (r: Client)
    requires Keyed(c.q.ops)
    ensures Keyed(r.q.ops)
  {
    match step
    case Enqueue(op, io) =>
      if Ready(c) then c.(q := FileNext(c.codec, c.q, DoAppend(Coalesced(c.q.ops, op), io))) else c
    case Try(id, a) =>
      if Ready(c) && id in c.q.ops then
        var (db, acked) := Sent(c.rate, c.db, c.q.ops[id], a);
        c.(db := db, due := if acked then Some(id) else None)
      else c
    case Remove(io) =>
      if c.due.Some? then c.(q := FileNext(c.codec, c.q, DoAck(c.due.value, io)), due := None) else c
    case Crash(opens) => c.(q := FileNext(c.codec, c.q, Reopen(opens)), due := None)
    case Elsewhere(d) => c.(db := DbNext(c.db, d))
    case ApplyEstimate(id, version, amount) =>
      c.(db := c.db.(voyages := Upsert(c.db.voyages, id, version, amount).0))
  }

  ghost function ClientRun(c: Client, steps: seq<ClientStep>): (r: Client)
    requires Keyed(c.q.ops)
    ensures Keyed(r.q.ops)
    decreases |steps|
  {
    if steps == [] then c
    else ClientNext(ClientRun(c, steps[..|steps| - 1]), steps[|steps| - 1])
  }

  /** The step writes a line for the voyage to the file, whether or not the call then reports success. */
  predicate Stages(c: Client, step: ClientStep, id: string) {
    step.Enqueue? && step.op.id == id && Ready(c) && Reaches(step.io, 1)
  }

  /** The operations durably enqueued for one voyage in a run, in order. */
  ghost function Enqueued(c: Client, steps: seq<ClientStep>, id: string): seq<Operation>
    requires Keyed(c.q.ops)
    decreases |steps|
  {
    if steps == [] then []
    else
      var init, step := steps[..|steps| - 1], steps[|steps| - 1];
      Enqueued(c, init, id) + (if Stages(ClientRun(c, init), step, id) then [step.op] else [])
  }

  function KeyOf(d: DbStep): string {
    match d
    case InsertVoyage(v) => v.id
    case InsertOutbox(id) => id
    case Commit(id) => id
    case Rollback(id) => id
    case UpdateVoyage(v) => v.id
  }

  /** What the theorems about one voyage ask of a step: lines fit the scanner, the voyage's creates carry
      version 1, and nobody else writes the voyage. */
  predicate Allowed(codec: Codec, step: ClientStep, id: string) {
    match step
    case Enqueue(op, _) => FitsLine(codec, op) && (op.id == id ==> CreateAtOne(op))
    case Elsewhere(d) => KeyOf(d) != id
    case _ => true
  }

  ghost predicate AllAllowed(codec: Codec, steps: seq<ClientStep>, id: string) {
    forall i :: 0 <= i < |steps| ==> Allowed(codec, steps[i], id)
  }

  /** What a reopened client would find in its queue. */
  function Durable(c: Client): map<string, Operation> {
    var replayed := Replay(c.codec, c.q.file);
    if replayed.Some? then replayed.value else map[]
  }

  function QueueState(queue: map<string, Operation>, id: string): Option<Versioned> {
    if id in queue then Some(Effect(queue[id])) else None
  }

  /** The row holds everything the queued operation could contribute. */
  predicate Absorbed(c: Client, id: string) {
    Join(RowState(c.db, id), QueueState(Durable(c), id)) == RowState(c.db, id)
  }

  /** The queue is in order, and so is what concerns the voyage. */
  ghost predicate ClientInv(c: Client, id: string) {
    && QueueInv(c.codec, c.q)
    && id !in c.db.inflight
    && FromOne(RowState(c.db, id))
    && (id in Durable(c) ==> CreateAtOne(Durable(c)[id]))
    && (c.due.Some? ==> c.q.running)
    && (c.due == Some(id) ==> Absorbed(c, id))
  }

  // ---- one send ------------------------------------------------------------------------------------------

  /** Joined with the operation, the row of a send is what it was before: the row moves only towards the
      operation. An acknowledged send has left nothing of the operation to apply. */
  lemma SendMerges(rate: Money, db: Db, op: Operation, a: Attempt)
    requires op.id !in db.inflight && FromOne(RowState(db, op.id)) && CreateAtOne(op)
    ensures var (db', acked) := Sent(rate, db, op, a);
            && FromOne(RowState(db', op.id))
            && Join(RowState(db', op.id), Some(Effect(op))) == Join(RowState(db, op.id), Some(Effect(op)))
            && (acked ==> Join(RowState(db', op.id), Some(Effect(op))) == RowState(db', op.id))
  {
    if op.kind == UPDATE {
      hide CreateReply;
      assert DbRun(DbNext(db, UpdateVoyage(Request(op))), []) == DbNext(db, UpdateVoyage(Request(op)));
      hide DbRun;
    } else {
      CreateIsAtomic(db, Request(op), a.create);
      hide DbRun, CreateTrace, QuotedReply, UpdateReply, AfterUpdate;
    }
  }

  /** The version of a create matters: stored by a clean first send, it is what the service holds
      afterwards exactly when it is 1. */
  lemma CreateVersionExact(rate: Money, db: Db, op: Operation, a: Attempt)
    requires op.id !in db.inflight && op.kind != UPDATE && op.id !in db.voyages
    requires Sent(rate, db, op, a).1
    ensures RowState(Sent(rate, db, op, a).0, op.id) == Some(Effect(op)) <==> op.version == 1
  {
    CreateIsAtomic(db, Request(op), a.create);
    hide DbRun, CreateTrace, QuotedReply;
  }

  // ---- one step ------------------------------------------------------------------------------------------

  /** What an append makes of the durable queue. */
  lemma AppendStored(codec: Codec, q: Queue, op: Operation, io: Io)
    requires QueueInv(codec, q) && q.running && FitsLine(codec, op)
    ensures QueueInv(codec, AfterAppend(codec, q, op, io))
    ensures Replay(codec, AfterAppend(codec, q, op, io).file)
            == Some(if Reaches(io, 1) then q.ops[op.id := op] else q.ops)
  {
    AppendIsAtomic(codec, q, op, io);
    AppendAgrees(codec, q.file, q.ops, op);
    assert q.file + [] == q.file;
    hide Line, Replay, Fitting, Terminated, FitsLine, Lawful;
  }

  /** What a removal makes of the durable queue. */
  lemma AckStored(codec: Codec, q: Queue, id: string, io: Io)
    requires QueueInv(codec, q) && q.running
    ensures QueueInv(codec, AfterAck(codec, q, id, io))
    ensures Replay(codec, AfterAck(codec, q, id, io).file)
            == Some(if AfterAck(codec, q, id, io).running then q.ops - {id} else q.ops)
  {
    AckIsAtomic(codec, q, id, io);
    RemovalAgrees(codec, q, id);
    hide Keyed, Fitting, FitsLine, Lawful, Compacted, Replay, Terminated;
  }

  /** A statement on another key, or an estimate, leaves the voyage's content and version alone. */
  lemma ElsewhereFrame(db: Db, d: DbStep, id: string)
    requires KeyOf(d) != id
    ensures RowState(DbNext(db, d), id) == RowState(db, id)
    ensures id in DbNext(db, d).inflight <==> id in db.inflight
  {}

  lemma EstimateFrame(db: Db, x: string, version: int64, amount: int64, id: string)
    ensures RowState(db.(voyages := Upsert(db.voyages, x, version, amount).0), id) == RowState(db, id)
  {}

  /** What the client and the service hold together about one voyage. */
  function Together(c: Client, id: string): Option<Versioned> {
    Join(RowState(c.db, id), QueueState(Durable(c), id))
  }

  /** The invariant is kept, and what both ends hold together changes only by an enqueue, which merges in its
      operation. */
  ghost predicate Conserves(c: Client, step: ClientStep, c': Client, id: string) {
    && ClientInv(c', id)
    && c'.rate == c.rate && c'.codec == c.codec
    && Together(c', id) == if Stages(c, step, id) then Join(Together(c, id), Some(Effect(step.op))) else Together(c, id)
  }

  /** Coalescing an operation into the queue merges it into what both ends hold. */
  lemma CoalescedTogether(row: Option<Versioned>, queue: map<string, Operation>, op: Operation, id: string)
    requires Keyed(queue)
    ensures var merged := Coalesced(queue, op);
            && merged.id == op.id && (merged == op || (op.id in queue && merged == queue[op.id]))
            && Join(row, QueueState(queue[op.id := merged], id))
               == (if op.id == id then Join(Join(row, QueueState(queue, id)), Some(Effect(op)))
                   else Join(row, QueueState(queue, id)))
  {}

  /** What would be found on reopening after an enqueue. */
  lemma EnqueueStored(c: Client, op: Operation, io: Io)
    requires QueueInv(c.codec, c.q) && Ready(c) && FitsLine(c.codec, op)
    ensures var c' := ClientNext(c, Enqueue(op, io));
            && QueueInv(c.codec, c'.q) && c' == c.(q := c'.q)
            && Durable(c') == (if Reaches(io, 1) then c.q.ops[op.id := Coalesced(c.q.ops, op)] else c.q.ops)
  {
    RunningDurable(c, op.id);
    DurableFits(c, op.id);
    CoalescedTogether(None, c.q.ops, op, op.id);
    AppendStored(c.codec, c.q, Coalesced(c.q.ops, op), io);
    hide QueueInv, FitsLine, Replay, Coalesced, QueueState, Reaches, Line, Keyed, AfterAppend;
  }

  lemma EnqueueConserves(c: Client, op: Operation, io: Io, id: string)
    requires ClientInv(c, id) && Allowed(c.codec, Enqueue(op, io), id)
    ensures Conserves(c, Enqueue(op, io), ClientNext(c, Enqueue(op, io)), id)
  {
    if Ready(c) {
      RunningDurable(c, id);
      EnqueueStored(c, op, io);
      CoalescedTogether(RowState(c.db, id), c.q.ops, op, id);
      hide QueueInv, FileNext, FitsLine, Coalesced, Join, QueueState, RowState, Reaches, Durable, Keyed;
    }
  }

  lemma DurableFits(c: Client, id: string)
    requires QueueInv(c.codec, c.q) && c.q.running
    ensures id in c.q.ops ==> FitsLine(c.codec, c.q.ops[id]) && c.q.ops[id].id == id
  {}

  lemma TryConserves(c: Client, x: string, a: Attempt, id: string)
    requires ClientInv(c, id)
    ensures Conserves(c, Try(x, a), ClientNext(c, Try(x, a)), id)
  {
    hide QueueInv;
    if Ready(c) && x in c.q.ops {
      assert Durable(c) == c.q.ops && c.q.ops[x].id == x by { RunningDurable(c, x); }
      SendFrame(c.rate, c.db, c.q.ops[x], a);
      if x == id {
        SendMerges(c.rate, c.db, c.q.ops[x], a);
      }
      hide Sent, Replay;
    }
  }

  lemma RunningDurable(c: Client, x: string)
    requires QueueInv(c.codec, c.q) && c.q.running
    ensures Durable(c) == c.q.ops
    ensures x in c.q.ops ==> c.q.ops[x].id == x
  {}

  lemma RemovedState(queue: map<string, Operation>, x: string, id: string)
    ensures QueueState(queue - {x}, id) == if x == id then None else QueueState(queue, id)
  {}

  /** A removal takes the entry out of what would be found on reopening, or leaves it. */
  lemma RemoveStored(c: Client, io: Io, id: string)
    requires QueueInv(c.codec, c.q) && c.q.running && c.due.Some?
    ensures var c' := ClientNext(c, Remove(io));
            && QueueInv(c.codec, c'.q) && c' == c.(q := c'.q, due := None)
            && (QueueState(Durable(c'), id) == QueueState(Durable(c), id)
                || (c.due == Some(id) && QueueState(Durable(c'), id) == None))
  {
    RunningDurable(c, id);
    AckStored(c.codec, c.q, c.due.value, io);
    RemovedState(c.q.ops, c.due.value, id);
    hide QueueInv, AfterAck, Replay, QueueState, Keyed, Reaches;
  }

  lemma RemoveConserves(c: Client, io: Io, id: string)
    requires ClientInv(c, id)
    ensures Conserves(c, Remove(io), ClientNext(c, Remove(io)), id)
  {
    if c.due.Some? {
      RemoveStored(c, io, id);
      hide QueueInv, FileNext, Durable, RowState;
    }
  }

  lemma CrashConserves(c: Client, opens: bool, id: string)
    requires ClientInv(c, id)
    ensures Conserves(c, Crash(opens), ClientNext(c, Crash(opens)), id)
  {
    ReopenIsAtomic(c.codec, c.q, opens);
    hide QueueInv, Replay, RowState;
  }

  lemma StepConserves(c: Client, step: ClientStep, id: string)
    requires ClientInv(c, id) && Allowed(c.codec, step, id)
    ensures Conserves(c, step, ClientNext(c, step), id)
  {
    match step {
      case Enqueue(op, io) => EnqueueConserves(c, op, io, id);
      case Try(x, a) => TryConserves(c, x, a, id);
      case Remove(io) => RemoveConserves(c, io, id);
      case Crash(opens) => CrashConserves(c, opens, id);
      case Elsewhere(d) =>
        ElsewhereFrame(c.db, d, id);
        hide QueueInv, DbNext, RowState, Replay;
      case ApplyEstimate(x, version, amount) =>
        EstimateFrame(c.db, x, version, amount, id);
        hide QueueInv, Upsert, RowState, Replay;
    }
  }

  // ---- whole runs ------------------------------------------------------------------------------------------

  /** The central invariant: in every run, at every moment, the service's row joined with the operation in
      the queue file is the fold of everything durably enqueued for the voyage onto what both ends held at
      the start. Nothing enqueued is lost, applied out of turn, or applied twice with effect. */
  lemma {:induction false} ServerAndQueueAreTheFold(c: Client, steps: seq<ClientStep>, id: string)
    requires ClientInv(c, id) && AllAllowed(c.codec, steps, id)
    ensures var end := ClientRun(c, steps);
            && ClientInv(end, id) && end.rate == c.rate && end.codec == c.codec
            && Together(end, id) == Fold(Together(c, id), Enqueued(c, steps, id))
    decreases |steps|
  {
    assert Keyed(c.q.ops);
    hide ClientInv, ClientNext, Together, Allowed;
    if steps != [] {
      var init, step := steps[..|steps| - 1], steps[|steps| - 1];
      ServerAndQueueAreTheFold(c, init, id);
      assert Allowed(c.codec, step, id);
      StepConserves(ClientRun(c, init), step, id);
      var ops := Enqueued(c, init, id);
      if Stages(ClientRun(c, init), step, id) {
        assert Enqueued(c, steps, id) == ops + [step.op];
        assert (ops + [step.op])[..|ops|] == ops;
      } else {
        assert Enqueued(c, steps, id) == ops + [];
        assert ops + [] == ops;
      }
    }
  }

  /** A client with an empty queue. */
  function Fresh(rate: Money, codec: Codec, db: Db): Client { Client(rate, codec, db, Queue([], map[], true), None) }

  /** So a voyage whose entry has left the queue file is held by the service exactly as everything enqueued
      for it decides, and once anything was enqueued there is such an entry or row. */
  lemma DrainedMeansSynced(rate: Money, codec: Codec, db: Db, steps: seq<ClientStep>, id: string)
    requires Lawful(codec) && AllAllowed(codec, steps, id) && id !in db.inflight && id !in db.voyages
    ensures var c := Fresh(rate, codec, db);
            var end := ClientRun(c, steps);
            && (id !in Durable(end) ==> RowState(end.db, id) == Fold(None, Enqueued(c, steps, id)))
            && (Enqueued(c, steps, id) != [] ==> id in Durable(end) || id in end.db.voyages)
  {
    var c := Fresh(rate, codec, db);
    FreshInv(rate, codec, db, id);
    ServerAndQueueAreTheFold(c, steps, id);
    hide ClientNext, ClientInv, Durable, ClientRun, Enqueued;
    JoinLaws(RowState(ClientRun(c, steps).db, id), None, None);
    var ops := Enqueued(c, steps, id);
    if ops != [] {
      FoldPresent(ops);
    }
  }

  lemma FreshInv(rate: Money, codec: Codec, db: Db, id: string)
    requires Lawful(codec) && id !in db.inflight && id !in db.voyages
    ensures ClientInv(Fresh(rate, codec, db), id) && Together(Fresh(rate, codec, db), id) == None
  {
    EmptyQueue(codec);
    assert Apply(map[], []) == map[];
  }

  lemma FoldPresent(ops: seq<Operation>)
    requires ops != []
    ensures Fold(None, ops).Some?
  {}

  // ---- what does not drain -----------------------------------------------------------------------------------

  /** The queue file holds an update of a voyage the service does not know. */
  ghost predicate Stuck(c: Client, id: string) {
    && ClientInv(c, id) && c.due != Some(id)
    && id in Durable(c) && Durable(c)[id].kind == UPDATE && Durable(c)[id].version >= 1
    && id !in c.db.voyages
  }

  lemma EnqueueSticks(c: Client, op: Operation, io: Io, id: string)
    requires Stuck(c, id) && Allowed(c.codec, Enqueue(op, io), id)
    ensures Stuck(ClientNext(c, Enqueue(op, io)), id)
  {
    EnqueueConserves(c, op, io, id);
    if Ready(c) {
      StuckQueue(c, id);
      EnqueueStored(c, op, io);
      hide ClientInv, QueueInv, FileNext, Durable, Keyed, Reaches, RowState, FitsLine, Together;
    }
  }

  lemma TrySticks(c: Client, x: string, a: Attempt, id: string)
    requires Stuck(c, id)
    ensures Stuck(ClientNext(c, Try(x, a)), id)
  {
    TryConserves(c, x, a, id);
    if Ready(c) && x in c.q.ops {
      StuckQueue(c, id);
      RunningDurable(c, x);
      SendFrame(c.rate, c.db, c.q.ops[x], a);
      if x == id {
        LoneUpdateRefused(c.rate, c.db, c.q.ops[id], a);
      }
      hide ClientInv, Sent, QueueInv, Replay, RowState, Together;
    }
  }

  lemma RemoveSticks(c: Client, io: Io, id: string)
    requires Stuck(c, id)
    ensures Stuck(ClientNext(c, Remove(io)), id)
  {
    RemoveConserves(c, io, id);
    if c.due.Some? {
      StuckQueue(c, id);
      RunningDurable(c, id);
      AckStored(c.codec, c.q, c.due.value, io);
      hide ClientInv, QueueInv, Replay, AfterAck, Keyed, RowState, Together;
    }
  }

  lemma StepSticks(c: Client, step: ClientStep, id: string)
    requires Stuck(c, id) && Allowed(c.codec, step, id)
    ensures Stuck(ClientNext(c, step), id)
  {
    match step {
      case Enqueue(op, io) => EnqueueSticks(c, op, io, id);
      case Try(x, a) => TrySticks(c, x, a, id);
      case Remove(io) => RemoveSticks(c, io, id);
      case Crash(opens) =>
        CrashConserves(c, opens, id);
        hide ClientInv, Replay, RowState;
      case Elsewhere(d) =>
        StepConserves(c, step, id);
        ElsewhereFrame(c.db, d, id);
        hide ClientInv, DbNext, Replay;
      case ApplyEstimate(x, version, amount) =>
        StepConserves(c, step, id);
        hide ClientInv, Replay;
    }
  }

  lemma StuckQueue(c: Client, id: string)
    requires ClientInv(c, id)
    ensures QueueInv(c.codec, c.q)
    ensures c.due.Some? ==> c.q.running
    ensures c.q.running ==> Durable(c) == c.q.ops
  {}

  lemma LoneUpdateRefused(rate: Money, db: Db, op: Operation, a: Attempt)
    requires op.kind == UPDATE && op.id !in db.voyages
    ensures op.id !in Sent(rate, db, op, a).0.voyages && !Sent(rate, db, op, a).1
  {
    hide CreateReply;
  }

  /** An update of a voyage the service does not know is never acknowledged, so the voyage never leaves the
      queue: whatever the network does and whatever is enqueued later, for this voyage or another, its entry
      stays an update and the service has no row. */
  lemma {:induction false} LoneUpdateSticks(c: Client, steps: seq<ClientStep>, id: string)
    requires Stuck(c, id) && AllAllowed(c.codec, steps, id)
    ensures Stuck(ClientRun(c, steps), id)
    decreases |steps|
  {
    assert Keyed(c.q.ops);
    hide Stuck, ClientNext, Allowed;
    if steps != [] {
      var init, step := steps[..|steps| - 1], steps[|steps| - 1];
      LoneUpdateSticks(c, init, id);
      RunCodec(c, init);
      assert Allowed(c.codec, step, id);
      StepSticks(ClientRun(c, init), step, id);
    }
  }

  lemma {:induction false} RunCodec(c: Client, steps: seq<ClientStep>)
    requires Keyed(c.q.ops)
    ensures ClientRun(c, steps).codec == c.codec && ClientRun(c, steps).rate == c.rate
    decreases |steps|
  {
    hide FileNext, Sent, DbNext, Upsert;
    if steps != [] {
      RunCodec(c, steps[..|steps| - 1]);
    }
  }

  /** And so they coalesce: enqueued offline, a create followed by a newer update is a lone update. */
  lemma CreateThenUpdateCoalesces(c: Client, create: Operation, update: Operation)
    requires Keyed(c.q.ops) && Ready(c) && create.id == update.id && create.id !in c.q.ops
    requires create.kind == CREATE && create.version == 1 && update.kind == UPDATE
    ensures ClientRun(c, [Enqueue(create, Completes), Enqueue(update, Completes)]).q.ops
            == c.q.ops[create.id := if update.version > 1 then update else create]
  {
    var first, second := Enqueue(create, Completes), Enqueue(update, Completes);
    assert [first, second][..1] == [first] && [first][..0] == [];
    assert ClientRun(c, [first]) == ClientNext(c, first);
    var c' := ClientNext(c, first);
    assert c'.q.ops == c.q.ops[create.id := create];
    assert Ready(c');
  }

  /** Put together: whatever comes after them, a create and a newer update enqueued offline for a voyage nobody
      has stored leave it unknown to the service and queued for good. */
  lemma CreateThenUpdateSticks(rate: Money, codec: Codec, db: Db, create: Operation, update: Operation,
                               steps: seq<ClientStep>)
    requires Lawful(codec) && create.id == update.id && create.id !in db.voyages && create.id !in db.inflight
    requires create.kind == CREATE && create.version == 1 && update.kind == UPDATE && update.version > 1
    requires FitsLine(codec, create) && FitsLine(codec, update) && AllAllowed(codec, steps, create.id)
    ensures var c := ClientRun(Fresh(rate, codec, db), [Enqueue(create, Completes), Enqueue(update, Completes)]);
            Stuck(c, create.id) && Stuck(ClientRun(c, steps), create.id)
  {
    var start, id := Fresh(rate, codec, db), create.id;
    var both := [Enqueue(create, Completes), Enqueue(update, Completes)];
    FreshInv(rate, codec, db, id);
    ClientRunTwo(start, [], both[0], both[1]);
    assert [] + both == both && ClientRun(start, []) == start;
    var c1 := ClientNext(start, both[0]);
    EnqueueConserves(start, create, Completes, id);
    EnqueueStored(start, create, Completes);
    RunningDurable(c1, id);
    EnqueueConserves(c1, update, Completes, id);
    EnqueueStored(c1, update, Completes);
    hide QueueInv, Replay, Line, FitsLine, ClientInv, Lawful, Together;
    assert Stuck(ClientNext(c1, both[1]), id);
    LoneUpdateSticks(ClientNext(c1, both[1]), steps, id);
  }

  // ---- SyncOnce --------------------------------------------------------------------------------------------

  /** The operations of a call that are still to be tried are still in the queue. */
  ghost predicate Ahead(queue: map<string, Operation>, pending: seq<Operation>, n: nat) {
    forall k :: n <= k < |pending| ==> pending[k].id in queue && queue[pending[k].id] == pending[k]
  }

  lemma SweepAhead(rate: Money, codec: Codec, s: Sweep, pending: seq<Operation>, a: Attempt, n: nat)
    requires SortedById(pending) && n < |pending| && Keyed(s.q.ops) && Ahead(s.q.ops, pending, n)
    ensures Ahead(SweepOne(rate, codec, s, pending[n], a).q.ops, pending, n + 1)
  {
    hide Sent, Less, Compacted, Keyed;
    forall k | n < k < |pending|
      ensures pending[k].id != pending[n].id
    {
      LessTotal(pending[n].id, pending[k].id);
    }
  }

  lemma {:induction false} SweptAhead(rate: Money, codec: Codec, start: Sweep, pending: seq<Operation>,
                                      attempts: nat -> Attempt, n: nat)
    requires SortedById(pending) && n <= |pending| && Keyed(start.q.ops) && Ahead(start.q.ops, pending, 0)
    ensures Ahead(Swept(rate, codec, start, pending, attempts, n).q.ops, pending, n)
  {
    hide SweepOne, SortedById, Ahead, Keyed, Sent;
    if n > 0 {
      SweptAhead(rate, codec, start, pending, attempts, n - 1);
      SweepAhead(rate, codec, Swept(rate, codec, start, pending, attempts, n - 1), pending, attempts(n - 1), n - 1);
    }
  }

  /** The steps of a call for the first `n` operations of its list: a try and a removal each. The removal
      does nothing after a failed send, and nothing happens once the queue has stopped. */
  function SyncTrace(pending: seq<Operation>, attempts: nat -> Attempt, n: nat): seq<ClientStep>
    requires n <= |pending|
  {
    if n == 0 then []
    else SyncTrace(pending, attempts, n - 1) + [Try(pending[n - 1].id, attempts(n - 1)), Remove(attempts(n - 1).ack)]
  }

  lemma SweepOneIsRun(c: Client, s: Sweep, op: Operation, a: Attempt)
    requires Keyed(c.q.ops) && c.due.None? && c.db == s.db && c.q == s.q
    requires op.id in c.q.ops && c.q.ops[op.id] == op
    ensures var s' := SweepOne(c.rate, c.codec, s, op, a);
            ClientNext(ClientNext(c, Try(op.id, a)), Remove(a.ack)) == c.(db := s'.db, q := s'.q)
  {
    hide Sent, AfterAck, Keyed;
  }

  /** SyncOnce is the run of its steps, operation by operation, so a crash inside it leaves what a prefix of
      those steps leaves. */
  lemma {:induction false} SweepIsRun(c: Client, pending: seq<Operation>, attempts: nat -> Attempt, n: nat)
    requires Keyed(c.q.ops) && c.due.None? && SortedById(pending) && n <= |pending| && Ahead(c.q.ops, pending, 0)
    ensures var s := Swept(c.rate, c.codec, Sweep(c.db, c.q, 0, 0), pending, attempts, n);
            ClientRun(c, SyncTrace(pending, attempts, n)) == c.(db := s.db, q := s.q)
  {
    hide SortedById, Ahead, Attempted, Keyed, ClientNext, SweepOne;
    var start := Sweep(c.db, c.q, 0, 0);
    if n > 0 {
      SweepIsRun(c, pending, attempts, n - 1);
      SweptAhead(c.rate, c.codec, start, pending, attempts, n - 1);
      AheadAt(Swept(c.rate, c.codec, start, pending, attempts, n - 1).q.ops, pending, n - 1);
      var c' := ClientRun(c, SyncTrace(pending, attempts, n - 1));
      SweepOneIsRun(c', Swept(c.rate, c.codec, start, pending, attempts, n - 1), pending[n - 1], attempts(n - 1));
      ClientRunTwo(c, SyncTrace(pending, attempts, n - 1), Try(pending[n - 1].id, attempts(n - 1)),
                   Remove(attempts(n - 1).ack));
    }
  }

  lemma AheadAt(queue: map<string, Operation>, pending: seq<Operation>, n: nat)
    requires Ahead(queue, pending, n) && n < |pending|
    ensures pending[n].id in queue && queue[pending[n].id] == pending[n]
  {}

  lemma ClientRunTwo(c: Client, steps: seq<ClientStep>, a: ClientStep, b: ClientStep)
    requires Keyed(c.q.ops)
    ensures ClientRun(c, steps + [a, b]) == ClientNext(ClientNext(ClientRun(c, steps), a), b)
  {
    assert steps + [a, b] == steps + [a] + [b];
    ClientRunSnoc(c, steps, a);
    ClientRunSnoc(c, steps + [a], b);
  }

  lemma ClientRunSnoc(c: Client, steps: seq<ClientStep>, step: ClientStep)
    requires Keyed(c.q.ops)
    ensures ClientRun(c, steps + [step]) == ClientNext(ClientRun(c, steps), step)
  {
    assert (steps + [step])[..|steps|] == steps;
  }

  lemma ListingReady(queue: map<string, Operation>)
    requires Keyed(queue)
    ensures var pending := Listing(queue);
            SortedById(pending) && Ahead(queue, pending, 0) && |pending| == |queue|
  {
    var pending := Listing(queue);
    ListingLength(queue);
    assert forall k :: 0 <= k < |pending| ==> pending[k] in pending;
  }

  /** The whole call is a run. */
  lemma SyncOnceIsRun(c: Client, attempts: nat -> Attempt)
    requires Keyed(c.q.ops) && c.due.None?
    ensures var s, pending := Synced(c.rate, c.codec, c.db, c.q, attempts), Listing(c.q.ops);
            ClientRun(c, SyncTrace(pending, attempts, |pending|)) == c.(db := s.db, q := s.q)
  {
    ListingReady(c.q.ops);
    SweepIsRun(c, Listing(c.q.ops), attempts, |Listing(c.q.ops)|);
    hide Swept, Listing, Keyed, SyncTrace, ClientRun;
  }

  /** Whether the k-th send of a call is acknowledged. */
  ghost predicate Acknowledged(rate: Money, codec: Codec, start: Sweep, pending: seq<Operation>,
                               attempts: nat -> Attempt, k: nat)
    requires k < |pending| && Keyed(start.q.ops)
  {
    Sent(rate, Swept(rate, codec, start, pending, attempts, k).db, pending[k], attempts(k)).1
  }

  /** Every operation is counted once, as synced or as a failure, the queue shrinks by what synced, and
      what is left is unchanged. */
  ghost predicate Counted(queue: map<string, Operation>, s: Sweep, n: nat) {
    && s.synced + s.failures == n
    && |s.q.ops| == |queue| - s.synced
    && forall id :: id in s.q.ops ==> id in queue && s.q.ops[id] == queue[id]
  }

  lemma CountOne(rate: Money, codec: Codec, queue: map<string, Operation>, s: Sweep, op: Operation, a: Attempt, n: nat)
    requires Keyed(s.q.ops) && Counted(queue, s, n) && op.id in s.q.ops
    requires SweepOne(rate, codec, s, op, a).q.running
    ensures var s' := SweepOne(rate, codec, s, op, a);
            && Counted(queue, s', n + 1)
            && (op.id in s'.q.ops <==> !Sent(rate, s.db, op, a).1)
            && (forall id :: id != op.id ==> (id in s'.q.ops <==> id in s.q.ops))
            && s.q.running
  {
    hide Sent, Reaches, Compacted, Keyed;
    RemovalCounts(s.q.ops, op.id);
  }

  /** Exactly the operations whose send failed are left. */
  ghost predicate FailuresRemain(rate: Money, codec: Codec, start: Sweep, pending: seq<Operation>,
                                 attempts: nat -> Attempt, n: nat)
    requires n <= |pending| && Keyed(start.q.ops)
  {
    var queue := Swept(rate, codec, start, pending, attempts, n).q.ops;
    forall k :: 0 <= k < n ==> (pending[k].id in queue <==> !Acknowledged(rate, codec, start, pending, attempts, k))
  }

  /** Accounting, for any pattern of failing sends with the store in order. */
  lemma {:induction false} SweepAccounts(rate: Money, codec: Codec, db: Db, q: Queue, pending: seq<Operation>,
                                         attempts: nat -> Attempt, n: nat)
    requires SortedById(pending) && n <= |pending| && Keyed(q.ops) && Ahead(q.ops, pending, 0)
    requires Swept(rate, codec, Sweep(db, q, 0, 0), pending, attempts, n).q.running
    ensures Counted(q.ops, Swept(rate, codec, Sweep(db, q, 0, 0), pending, attempts, n), n)
    ensures FailuresRemain(rate, codec, Sweep(db, q, 0, 0), pending, attempts, n)
  {
    hide Sent, Less, Attempted, Keyed;
    var start := Sweep(db, q, 0, 0);
    if n > 0 {
      var u := Swept(rate, codec, start, pending, attempts, n - 1);
      var op, a := pending[n - 1], attempts(n - 1);
      assert Swept(rate, codec, start, pending, attempts, n) == SweepOne(rate, codec, u, op, a);
      assert u.q.running;
      SweepAccounts(rate, codec, db, q, pending, attempts, n - 1);
      SweptAhead(rate, codec, start, pending, attempts, n - 1);
      assert op.id in u.q.ops;
      CountOne(rate, codec, q.ops, u, op, a, n - 1);
      DistinctBefore(pending, n - 1);
      assert Acknowledged(rate, codec, start, pending, attempts, n - 1) == Sent(rate, u.db, op, a).1;
      hide Counted, SweepOne, Ahead, Swept, Acknowledged, SortedById;
    }
  }

  lemma DistinctBefore(pending: seq<Operation>, n: nat)
    requires SortedById(pending) && n < |pending|
    ensures forall k :: 0 <= k < n ==> pending[k].id != pending[n].id
  {
    forall k | 0 <= k < n
      ensures pending[k].id != pending[n].id
    {
      LessTotal(pending[k].id, pending[n].id);
    }
  }

  lemma RemovalCounts(queue: map<string, Operation>, id: string)
    requires id in queue
    ensures |queue - {id}| == |queue| - 1
  {
    assert (queue - {id}).Keys == queue.Keys - {id};
  }

  /** SyncOnce on the whole queue. */
  lemma SyncOnceAccounts(rate: Money, codec: Codec, db: Db, q: Queue, attempts: nat -> Attempt)
    requires Keyed(q.ops) && Synced(rate, codec, db, q, attempts).q.running
    ensures Counted(q.ops, Synced(rate, codec, db, q, attempts), |q.ops|)
    ensures FailuresRemain(rate, codec, Sweep(db, q, 0, 0), Listing(q.ops), attempts, |Listing(q.ops)|)
  {
    ListingReady(q.ops);
    SweepAccounts(rate, codec, db, q, Listing(q.ops), attempts, |Listing(q.ops)|);
    hide Swept, Listing, Keyed, FailuresRemain, Counted;
  }

  /** How a call ends that stops: at one acknowledged operation whose removal failed. Those before it are accounted for
      as above, that one is sent and still in the file, and those after it are neither sent nor touched. */
  ghost predicate StoppedWith(rate: Money, codec: Codec, db: Db, q: Queue, pending: seq<Operation>,
                              attempts: nat -> Attempt, k: nat, end: Sweep)
    requires Keyed(q.ops)
  {
    && k < |pending|
    && var start := Sweep(db, q, 0, 0);
       var before := Swept(rate, codec, start, pending, attempts, k);
       && Counted(q.ops, before, k) && FailuresRemain(rate, codec, start, pending, attempts, k)
       && Sent(rate, before.db, pending[k], attempts(k)).1
       && end.db == Sent(rate, before.db, pending[k], attempts(k)).0
       && end.q.file == before.q.file && end.q.ops == before.q.ops - {pending[k].id}
       && end.synced == before.synced && end.failures == before.failures
  }

  lemma SyncOnceStops(rate: Money, codec: Codec, db: Db, q: Queue, attempts: nat -> Attempt) returns (k: nat)
    requires Keyed(q.ops) && q.running && !Synced(rate, codec, db, q, attempts).q.running
    ensures StoppedWith(rate, codec, db, q, Listing(q.ops), attempts, k, Synced(rate, codec, db, q, attempts))
  {
    hide StoppedWith, Swept, Keyed;
    ListingReady(q.ops);
    k := SweepStops(rate, codec, db, q, Listing(q.ops), attempts);
    hide Listing;
  }

  lemma SweepStops(rate: Money, codec: Codec, db: Db, q: Queue, pending: seq<Operation>, attempts: nat -> Attempt)
    returns (k: nat)
    requires Keyed(q.ops) && q.running && SortedById(pending) && Ahead(q.ops, pending, 0)
    requires !Swept(rate, codec, Sweep(db, q, 0, 0), pending, attempts, |pending|).q.running
    ensures StoppedWith(rate, codec, db, q, pending, attempts, k,
                        Swept(rate, codec, Sweep(db, q, 0, 0), pending, attempts, |pending|))
  {
    hide Keyed, Sent, SortedById, Ahead, Counted, FailuresRemain, SweepOne, Swept;
    var start := Sweep(db, q, 0, 0);
    k := StoppedAt(rate, codec, start, pending, attempts, |pending|);
    SweptGrows(rate, codec, start, pending, attempts, k);
    SweepOneStops(rate, codec, Swept(rate, codec, start, pending, attempts, k), pending[k], attempts(k));
    SweepAccounts(rate, codec, db, q, pending, attempts, k);
    SweptStops(rate, codec, start, pending, attempts, k + 1, |pending|);
  }

  lemma {:induction false} StoppedAt(rate: Money, codec: Codec, start: Sweep, pending: seq<Operation>,
                                     attempts: nat -> Attempt, n: nat) returns (k: nat)
    requires n <= |pending| && Keyed(start.q.ops) && start.q.running
    requires !Swept(rate, codec, start, pending, attempts, n).q.running
    ensures k < n && Swept(rate, codec, start, pending, attempts, k).q.running
    ensures !Swept(rate, codec, start, pending, attempts, k + 1).q.running
  {
    hide SweepOne, Keyed;
    if Swept(rate, codec, start, pending, attempts, n - 1).q.running {
      k := n - 1;
    } else {
      k := StoppedAt(rate, codec, start, pending, attempts, n - 1);
    }
  }

  lemma SweepOneStops(rate: Money, codec: Codec, s: Sweep, op: Operation, a: Attempt)
    requires Keyed(s.q.ops) && s.q.running && !SweepOne(rate, codec, s, op, a).q.running
    ensures var s' := SweepOne(rate, codec, s, op, a);
            && Sent(rate, s.db, op, a).1 && s'.db == Sent(rate, s.db, op, a).0
            && s'.q.file == s.q.file && s'.q.ops == s.q.ops - {op.id}
            && s'.synced == s.synced && s'.failures == s.failures
  {
    hide Sent, Compacted, Keyed;
  }

  // ---- a clean SyncOnce --------------------------------------------------------------------------------------

  predicate Clean(a: Attempt) {
    && a.net == Arrives && a.create == NoFault && a.link == Reachable && a.update == CallOk && !a.getFails
    && a.ack == Completes
  }

  /** The service accepts the operation: a valid update of a stored voyage, or a valid create of a voyage
      whose stored content can be priced. */
  predicate Deliverable(rate: Money, db: Db, op: Operation) {
    && Acceptable(op)
    && if op.kind == UPDATE then op.id in db.voyages
       else PriceOf(if op.id in db.voyages then db.voyages[op.id].content else op.content, rate).Ok?
  }

  /** With nothing failing on the way, exactly the deliverable operations are acknowledged. */
  lemma CleanSendExact(rate: Money, db: Db, op: Operation, a: Attempt)
    requires op.id !in db.inflight && Clean(a)
    ensures Sent(rate, db, op, a).1 <==> Deliverable(rate, db, op)
  {
    CreateSucceedsIffPriceable(rate, db, Request(op));
    hide PriceOf, CreateReply;
  }

  /** Whether an operation is deliverable depends on its own row only. */
  lemma {:induction false} DeliverableThroughout(rate: Money, codec: Codec, start: Sweep, pending: seq<Operation>,
                                                 attempts: nat -> Attempt, n: nat, op: Operation)
    requires n <= |pending| && Keyed(start.q.ops) && forall k :: 0 <= k < n ==> pending[k].id != op.id
    ensures var db := Swept(rate, codec, start, pending, attempts, n).db;
            Deliverable(rate, db, op) == Deliverable(rate, start.db, op)
            && (op.id in db.inflight <==> op.id in start.db.inflight)
  {
    hide Sent, PriceOf, Acceptable, Keyed, Compacted;
    if n > 0 {
      DeliverableThroughout(rate, codec, start, pending, attempts, n - 1, op);
      SendFrame(rate, Swept(rate, codec, start, pending, attempts, n - 1).db, pending[n - 1], attempts(n - 1));
    }
  }

  /** No open transaction of somebody else holds the key of a queued operation. */
  ghost predicate NoneHeld(queue: map<string, Operation>, db: Db) {
    forall id :: id in queue ==> id !in db.inflight
  }

  /** With nothing failing on the way, a SyncOnce leaves exactly the undeliverable operations queued; so it
      empties the queue just when every queued operation is deliverable at the start. */
  lemma CleanSyncExact(rate: Money, codec: Codec, db: Db, q: Queue, attempts: nat -> Attempt)
    requires Keyed(q.ops) && NoneHeld(q.ops, db) && q.running && forall k :: Clean(attempts(k))
    ensures var end := Synced(rate, codec, db, q, attempts);
            && end.q.running
            && (forall id :: id in end.q.ops <==> id in q.ops && !Deliverable(rate, db, q.ops[id]))
            && (end.q.ops == map[] <==> forall id :: id in q.ops ==> Deliverable(rate, db, q.ops[id]))
  {
    var start, pending := Sweep(db, q, 0, 0), Listing(q.ops);
    ListingReady(q.ops);
    CleanRuns(rate, codec, start, pending, attempts, |pending|);
    SyncOnceAccounts(rate, codec, db, q, attempts);
    var end := Synced(rate, codec, db, q, attempts);
    hide Deliverable, Swept;
    forall id | id in q.ops
      ensures id in end.q.ops <==> !Deliverable(rate, db, q.ops[id])
    {
      assert q.ops[id] in pending;
      var k :| 0 <= k < |pending| && pending[k] == q.ops[id];
      DeliverableThroughout(rate, codec, start, pending, attempts, k, pending[k]) by { DistinctBefore(pending, k); }
      CleanSendExact(rate, Swept(rate, codec, start, pending, attempts, k).db, pending[k], attempts(k));
    }
  }

  lemma {:induction false} CleanRuns(rate: Money, codec: Codec, start: Sweep, pending: seq<Operation>,
                                     attempts: nat -> Attempt, n: nat)
    requires n <= |pending| && Keyed(start.q.ops) && start.q.running && forall k :: Clean(attempts(k))
    ensures Swept(rate, codec, start, pending, attempts, n).q.running
  {
    hide Sent, Keyed, Compacted;
    if n > 0 {
      CleanRuns(rate, codec, start, pending, attempts, n - 1);
    }
  }
}
