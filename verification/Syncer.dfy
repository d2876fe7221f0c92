/** clients/onboard-sync: the coalescing queue, the transport to the voyage service, and SyncOnce. */
module Syncing {
  import opened Money
  import opened Voyages
  import opened Storage
  import opened Server
  import opened Merge
  import opened JsonlText
  import opened QueueStore

  /** The network for one send: it arrives and so does the reply, the request is lost, or the request
      arrives and the reply is lost. */
  datatype Net = Arrives | RequestLost | ReplyLost

  /** Everything outside the client during one attempt: the network, the faults inside the service and
      what becomes of a transaction the request has to wait for, how far the Ack's file effects get, and the
      clock. */
  datatype Attempt = Attempt(
    net: Net, rival: Rival, create: CreateFault, link: Link, update: CallFault, getFails: bool, ack: Io, now: int)

  /** A create's version is not sent; the service stores 1. */
  function Request(op: Operation): Voyage {
    Voyage(op.id, op.content, if op.kind == UPDATE then op.version else 0, 0)
  }

  /** The service's tables after a send, and whether the client gets an acknowledgement. */
  function Sent(rate: Money, db: Db, op: Operation, a: Attempt): (Db, bool) {
    if a.net.RequestLost? then (db, false)
    else if op.kind == UPDATE then
      (AfterUpdate(db, Request(op), a.update, []),
       UpdateReply(db, Request(op), a.update, [], a.getFails).Ok? && a.net.Arrives?)
    else
      var found := Awaited(db, Request(op), a.rival);
      (AfterCreate(found, Request(op), a.create),
       CreateReply(rate, found, Request(op), a.create, a.link).Ok? && a.net.Arrives?)
  }

  class Transport {
    const server: Server

    constructor (server: Server)
      ensures this.server == server
    {
      this.server := server;
    }

    /** Posts the mutation; true only on a clean acknowledgement. */
    method Send(op: Operation, a: Attempt) returns (ok: bool)
      modifies server.repo.pg
      ensures (server.repo.pg.Tables(), ok) == Sent(server.rate, old(server.repo.pg.Tables()), op, a)
      // a lost request changes nothing; any other is answered by the service, and acknowledged if the answer is a
      // success and arrives
      ensures a.net == RequestLost ==> !ok && server.repo.pg.Tables() == old(server.repo.pg.Tables())
      ensures a.net != RequestLost && op.kind == "update" ==>
                exists r ::
                  && UpdateAnswered(old(server.repo.pg.voyages), server.repo.pg.voyages,
                                    Voyage(op.id, op.content, op.version, 0), a.update, [], a.getFails, r)
                  && (ok <==> r.Ok? && a.net == Arrives)
      ensures a.net != RequestLost && op.kind != "update" ==>
                var v := Voyage(op.id, op.content, 0, 0);
                exists r ::
                  && CreateAnswered(server.rate, Awaited(old(server.repo.pg.Tables()), v, a.rival).voyages,
                                    server.repo.pg.voyages, v, a.create, a.link, r)
                  && (ok <==> r.Ok? && a.net == Arrives)
    {
      hide CreateReply, UpdateReply, AfterCreate, AfterUpdate, DbNext, Awaited, CreateAnswered, UpdateAnswered;
      if a.net.RequestLost? {
        return false;
      }
      if op.kind == UPDATE {
        var r := server.UpdateVoyage(Request(op), a.update, [], a.getFails);
        ok := r.Ok? && a.net.Arrives?;
      } else {
        var r := server.CreateVoyage(op.id, op.content, a.rival, a.create, a.link);
        ok := r.Ok? && a.net.Arrives?;
      }
    }
  }

  /** What Enqueue stores: the pending operation for the voyage merged with the new one. */
  function Coalesced(queue: map<string, Operation>, op: Operation): Operation {
    if op.id in queue then HigherVersionWins(queue[op.id], op) else op
  }

  /** One attempt: the send and, on an acknowledgement, the removal from the queue. The last result tells
      whether the send was acknowledged. */
  ghost function Attempted(rate: Money, codec: Codec, db: Db, q: Queue, op: Operation, a: Attempt)
    : (r: (Db, Queue, bool))
    requires Keyed(q.ops)
    ensures Keyed(r.1.ops)
  {
    var (db', acked) := Sent(rate, db, op, a);
    (db', if acked then AfterAck(codec, q, op.id, a.ack) else q, acked)
  }

  /** Where a SyncOnce stands: both ends, how many operations were acknowledged and removed, and how many
      sends failed. A failed removal stops the queue and with it the call. */
  datatype Sweep = Sweep(db: Db, q: Queue, synced: nat, failures: nat)

  ghost function SweepOne(rate: Money, codec: Codec, s: Sweep, op: Operation, a: Attempt): (r: Sweep)
    requires Keyed(s.q.ops)
    ensures Keyed(r.q.ops)
  {
    if !s.q.running then s
    else
      var (db, q, acked) := Attempted(rate, codec, s.db, s.q, op, a);
      Sweep(db, q, if acked && q.running then s.synced + 1 else s.synced, if acked then s.failures else s.failures + 1)
  }

  /** A SyncOnce after the first `n` operations of its list. */
  ghost function Swept(rate: Money, codec: Codec, start: Sweep, pending: seq<Operation>, attempts: nat -> Attempt,
                       n: nat): (r: Sweep)
    requires n <= |pending| && Keyed(start.q.ops)
    ensures Keyed(r.q.ops)
  {
    if n == 0 then start
    else
      SweepOne(rate, codec, Swept(rate, codec, start, pending, attempts, n - 1), pending[n - 1], attempts(n - 1))
  }

  /** The whole call. */
  ghost function Synced(rate: Money, codec: Codec, db: Db, q: Queue, attempts: nat -> Attempt): Sweep
    requires Keyed(q.ops)
  {
    Swept(rate, codec, Sweep(db, q, 0, 0), Listing(q.ops), attempts, |Listing(q.ops)|)
  }

  /** How many operations were tried; a call that stopped did so on one that is not counted. */
  function Tried(s: Sweep): nat { s.synced + s.failures + if s.q.running then 0 else 1 }

  /** The clock at the last of `n` attempts. */
  function Clock(attempts: nat -> Attempt, n: nat, before: int): int {
    if n == 0 then before else attempts(n - 1).now
  }

  datatype SyncStatus = SyncStatus(queueDepth: nat, retryCount: nat, lastAttempt: int, failed: bool)

  class Syncer {
    const store: Store
    const transport: Transport
    var retryCount: nat
    var lastAttempt: int
    var lastFailed: bool

    constructor (store: Store, transport: Transport)
      ensures this.store == store && this.transport == transport && retryCount == 0
    {
      this.store, this.transport, retryCount, lastAttempt, lastFailed := store, transport, 0, 0, false;
    }

    /** Stages an operation: what was pending for the voyage, merged with it, is appended to the queue. */
    method Enqueue(op: Operation, io: Io) returns (ok: bool)
      requires Keyed(store.ops)
      modifies store`ops, store.disk`queue
      ensures Queue(Contents(store.disk.queue), store.ops, ok)
              == AfterAppend(store.codec, Queue(old(Contents(store.disk.queue)), old(store.ops), true),
                             Coalesced(old(store.ops), op), io)
      // a pending operation at the same version or above stays; the line of what is pending now is appended
      ensures var merged := if op.id in old(store.ops) && old(store.ops)[op.id].version >= op.version
                            then old(store.ops)[op.id] else op;
              && store.ops == old(store.ops)[op.id := merged]
              && Contents(store.disk.queue)
                 == old(Contents(store.disk.queue)) + if Reaches(io, 1) then store.codec.marshal(merged) + [10] else []
    {
      var pending := store.Pending();
      assert op.id in store.ops ==> store.ops[op.id] in pending;
      assert forall x :: x in pending ==> x.id in store.ops && store.ops[x.id] == x;
      hide Lists, Listing, Agree, Replay, Less, Line;
      var merged := MergeWith(pending, op);
      assert merged == Coalesced(store.ops, op);
      ok := store.Append(merged, io);
    }

    /** Merges an operation with the first pending one for the same voyage. */
    static method MergeWith(pending: seq<Operation>, op: Operation) returns (merged: Operation)
      ensures || (merged == op && forall x :: x in pending ==> x.id != op.id)
              || exists k :: 0 <= k < |pending| && pending[k].id == op.id && merged == HigherVersionWins(pending[k], op)
    {
      merged := op;
      var i := 0;
      while i < |pending|
        invariant 0 <= i <= |pending|
        invariant merged == op
        invariant forall k :: 0 <= k < i ==> pending[k].id != op.id
      {
        if pending[i].id == op.id {
          merged := HigherVersionWins(pending[i], op);
          return;
        }
        i := i + 1;
      }
    }

    /** Attempts every pending operation once. */
    method SyncOnce(attempts: nat -> Attempt) returns (synced: nat, ok: bool)
      requires Keyed(store.ops) && Lawful(store.codec)
      modifies this`retryCount, this`lastAttempt, this`lastFailed, store`ops, store.disk, transport.server.repo.pg
      ensures var s := Synced(transport.server.rate, store.codec, old(transport.server.repo.pg.Tables()),
                              old(Queue(Contents(store.disk.queue), store.ops, true)), attempts);
              && transport.server.repo.pg.Tables() == s.db
              && Queue(Contents(store.disk.queue), store.ops, ok) == s.q
              && synced == s.synced && retryCount == old(retryCount) + s.failures
              && lastFailed == (old(lastFailed) || s.failures > 0)
              && lastAttempt == Clock(attempts, Tried(s), old(lastAttempt))
      // the clock of the last operation tried, which after a failed removal is one not counted
      ensures var tried := synced + retryCount - old(retryCount) + if ok then 0 else 1;
              && tried >= 0
              && lastAttempt == if tried == 0 then old(lastAttempt) else attempts(tried - 1).now
    {
      hide *;
      var pending := store.Pending();
      ghost var q := Queue(Contents(store.disk.queue), store.ops, true);
      SyncedIs(transport.server.rate, store.codec, transport.server.repo.pg.Tables(), q, attempts);
      ClockIs(Synced(transport.server.rate, store.codec, transport.server.repo.pg.Tables(), q, attempts), attempts,
              lastAttempt);
      synced, ok := SyncAll(pending, attempts);
    }

    /** The attempts one after the other, up to the first failed removal. */
    method SyncAll(pending: seq<Operation>, attempts: nat -> Attempt) returns (synced: nat, ok: bool)
      requires Keyed(store.ops) && Lawful(store.codec)
      modifies this`retryCount, this`lastAttempt, this`lastFailed, store`ops, store.disk, transport.server.repo.pg
      ensures var start := Sweep(old(transport.server.repo.pg.Tables()),
                                 old(Queue(Contents(store.disk.queue), store.ops, true)), 0, 0);
              var s := Swept(transport.server.rate, store.codec, start, pending, attempts, |pending|);
              && transport.server.repo.pg.Tables() == s.db
              && Queue(Contents(store.disk.queue), store.ops, ok) == s.q
              && synced == s.synced && retryCount == old(retryCount) + s.failures
              && lastFailed == (old(lastFailed) || s.failures > 0)
              && lastAttempt == Clock(attempts, Tried(s), old(lastAttempt))
    {
      hide *;
      ghost var rate, codec, pg := transport.server.rate, store.codec, transport.server.repo.pg;
      ghost var start := Sweep(pg.Tables(), Queue(Contents(store.disk.queue), store.ops, true), 0, 0);
      SweptStarts(rate, codec, start, pending, attempts);
      ClockMoves(attempts, 0, lastAttempt);
      synced, ok := 0, true;
      var i := 0;
      while i < |pending|
        invariant 0 <= i <= |pending| && ok && Keyed(store.ops)
        invariant var s := Swept(rate, codec, start, pending, attempts, i);
                  && s.db == pg.Tables() && s.q == Queue(Contents(store.disk.queue), store.ops, ok)
                  && synced == s.synced && retryCount == old(retryCount) + s.failures
                  && lastFailed == (old(lastFailed) || s.failures > 0)
                  && Tried(s) == i && lastAttempt == Clock(attempts, i, old(lastAttempt))
      {
        SweptGrows(rate, codec, start, pending, attempts, i);
        SweepOneIs(rate, codec, Swept(rate, codec, start, pending, attempts, i), pending[i], attempts(i));
        ClockMoves(attempts, i, old(lastAttempt));
        var acked;
        acked, ok := SyncOne(pending[i], attempts(i));
        i := i + 1;
        if !ok {
          SweptStops(rate, codec, start, pending, attempts, i, |pending|);
          return;
        }
        if acked {
          synced := synced + 1;
        }
      }
    }

    /** One attempt: send, then remove on an acknowledgement. */
    method SyncOne(op: Operation, a: Attempt) returns (acked: bool, ok: bool)
      requires Keyed(store.ops) && Lawful(store.codec)
      modifies this`retryCount, this`lastAttempt, this`lastFailed, store`ops, store.disk, transport.server.repo.pg
      ensures Keyed(store.ops) && lastAttempt == a.now
      ensures var tried := Attempted(transport.server.rate, store.codec, old(transport.server.repo.pg.Tables()),
                                     old(Queue(Contents(store.disk.queue), store.ops, true)), op, a);
              && transport.server.repo.pg.Tables() == tried.0
              && Queue(Contents(store.disk.queue), store.ops, ok) == tried.1
              && acked == tried.2
      ensures retryCount == old(retryCount) + (if acked then 0 else 1)
      ensures lastFailed == (old(lastFailed) || !acked)
    {
      hide Sent, Lawful, Compacted, Contents;
      lastAttempt := a.now;
      acked := transport.Send(op, a);
      if !acked {
        retryCount := retryCount + 1;
        lastFailed := true;
        return acked, true;
      }
      ok := store.Ack(op.id, a.ack);
    }

    method Status() returns (status: SyncStatus)
      requires Keyed(store.ops)
      ensures status == SyncStatus(|store.ops|, retryCount, lastAttempt, lastFailed)
    {
      var pending := store.Pending();
      ListingLength(store.ops);
      status := SyncStatus(|pending|, retryCount, lastAttempt, lastFailed);
    }
  }

  lemma SyncedIs(rate: Money, codec: Codec, db: Db, q: Queue, attempts: nat -> Attempt)
    requires Keyed(q.ops)
    ensures Synced(rate, codec, db, q, attempts)
            == Swept(rate, codec, Sweep(db, q, 0, 0), Listing(q.ops), attempts, |Listing(q.ops)|)
  {}

  lemma ClockIs(s: Sweep, attempts: nat -> Attempt, before: int)
    ensures var tried := s.synced + s.failures + if s.q.running then 0 else 1;
            Clock(attempts, Tried(s), before) == if tried == 0 then before else attempts(tried - 1).now
  {}

  lemma SweptStarts(rate: Money, codec: Codec, start: Sweep, pending: seq<Operation>, attempts: nat -> Attempt)
    requires Keyed(start.q.ops)
    ensures Swept(rate, codec, start, pending, attempts, 0) == start
    ensures start.q.running && start.synced == 0 && start.failures == 0 ==> Tried(start) == 0
  {}

  lemma ClockMoves(attempts: nat -> Attempt, n: nat, before: int)
    ensures Clock(attempts, 0, before) == before && Clock(attempts, n + 1, before) == attempts(n).now
  {}

  lemma SweptGrows(rate: Money, codec: Codec, start: Sweep, pending: seq<Operation>, attempts: nat -> Attempt, n: nat)
    requires n < |pending| && Keyed(start.q.ops)
    ensures Swept(rate, codec, start, pending, attempts, n + 1)
            == SweepOne(rate, codec, Swept(rate, codec, start, pending, attempts, n), pending[n], attempts(n))
  {}

  lemma SweepOneIs(rate: Money, codec: Codec, s: Sweep, op: Operation, a: Attempt)
    requires Keyed(s.q.ops) && s.q.running
    ensures var tried, s' := Attempted(rate, codec, s.db, s.q, op, a), SweepOne(rate, codec, s, op, a);
            && s'.db == tried.0 && s'.q == tried.1
            && s'.synced == (if tried.2 && tried.1.running then s.synced + 1 else s.synced)
            && s'.failures == (if tried.2 then s.failures else s.failures + 1)
            && (!tried.2 ==> tried.1.running)
            && Tried(s') == Tried(s) + 1
  {}

  /** Once the queue has stopped, the rest of the call does nothing. */
  lemma {:induction false} SweptStops(rate: Money, codec: Codec, start: Sweep, pending: seq<Operation>,
                                      attempts: nat -> Attempt, n: nat, m: nat)
    requires n <= m <= |pending| && Keyed(start.q.ops)
    requires !Swept(rate, codec, start, pending, attempts, n).q.running
    ensures Swept(rate, codec, start, pending, attempts, m) == Swept(rate, codec, start, pending, attempts, n)
  {
    hide Attempted;
    if n < m {
      SweptStops(rate, codec, start, pending, attempts, n, m - 1);
    }
  }
}
