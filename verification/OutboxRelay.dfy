/** services/voyage/adapters/kafka/poller.go: the outbox relay. */
module OutboxRelay {
  import opened Wrappers
  import opened Voyages
  import opened Storage
  import opened Broker

  const BATCH: nat := 100

  /** What the relay holds in memory during a Flush: the rows still to do, and whether the first
      of them has been acknowledged by the broker and only waits for its stamp. */
  datatype Relay = Relay(batch: seq<nat>, acked: bool)

  const IDLE := Relay([], false)

  datatype RelayView = RelayView(db: Db, logs: Logs, relay: Relay)

  datatype RelayStep =
    | Select
    | Publish(fate: Produce)
    | Mark(fault: CallFault)

  /** The ids in [lo, hi) of the unpublished rows, in ascending order. */
  function Unpublished(outbox: map<nat, OutboxRow>, lo: nat, hi: nat): seq<nat>
    decreases hi - lo
  {
    if lo >= hi then []
    else if lo in outbox && !outbox[lo].published then [lo] + Unpublished(outbox, lo + 1, hi)
    else Unpublished(outbox, lo + 1, hi)
  }

  /** Unstamped rows in ascending order of id, at most 100 of them; if there are more, all the others are higher. */
  ghost predicate LowestUnstamped(outbox: map<nat, OutboxRow>, nextId: nat, ids: seq<nat>) {
    && |ids| <= 100
    && (forall i, j :: 0 <= i < j < |ids| ==> ids[i] < ids[j])
    && (forall i :: 0 <= i < |ids| ==> ids[i] < nextId && ids[i] in outbox && !outbox[ids[i]].published)
    && forall k :: k < nextId && k in outbox && !outbox[k].published && k !in ids ==>
         |ids| == 100 && forall i :: 0 <= i < 100 ==> ids[i] < k
  }

  lemma FirstIsLowest(db: Db)
    ensures LowestUnstamped(db.outbox, db.nextId, First(Pending(db), BATCH))
  {
    UnpublishedExact(db.outbox, 0, db.nextId);
    var all, ids := Pending(db), First(Pending(db), BATCH);
    assert forall i :: 0 <= i < |all| ==> all[i] in all;
    hide Unpublished, Pending;
    forall k | k in all && k !in ids
      ensures |ids| == 100 && forall i :: 0 <= i < 100 ==> ids[i] < k
    {
      var j :| 0 <= j < |all| && all[j] == k;
      FirstHas(all, BATCH, j);
    }
  }

  lemma FirstHas(ids: seq<nat>, n: nat, j: nat)
    requires j < |ids|
    ensures j < n ==> ids[j] in First(ids, n)
  {
    if j < n {
      assert First(ids, n)[j] == ids[j];
    }
  }

  /** The listing is exact and strictly ascending. */
  lemma {:induction false} UnpublishedExact(outbox: map<nat, OutboxRow>, lo: nat, hi: nat)
    ensures forall k :: k in Unpublished(outbox, lo, hi) <==> lo <= k < hi && k in outbox && !outbox[k].published
    ensures Ascending(Unpublished(outbox, lo, hi))
    decreases hi - lo
  {
    if lo < hi {
      UnpublishedExact(outbox, lo + 1, hi);
      var rest := Unpublished(outbox, lo + 1, hi);
      assert forall j :: 0 <= j < |rest| ==> rest[j] in rest;
    }
  }

  ghost predicate Ascending(ids: seq<nat>) {
    forall i, j :: 0 <= i < j < |ids| ==> ids[i] < ids[j]
  }

  function First(ids: seq<nat>, n: nat): seq<nat> { if |ids| <= n then ids else ids[..n] }

  lemma FirstIs(batch: seq<nat>, rest: seq<nat>, n: nat)
    requires |batch| == n || (|batch| < n && rest == [])
    ensures First(batch + rest, n) == batch
  {
    assert batch + [] == batch;
  }

  function Rest(ids: seq<nat>, n: nat): seq<nat> { if |ids| <= n then [] else ids[n..] }

  function Pending(db: Db): seq<nat> { Unpublished(db.outbox, 0, db.nextId) }

  function Stamp(db: Db, id: nat): Db
    requires id in db.outbox
  {
    db.(outbox := db.outbox[id := db.outbox[id].(published := true)])
  }

  function RelayNext(v: RelayView, step: RelayStep): RelayView {
    match step
    case Select =>
      if v.relay == IDLE then v.(relay := Relay(First(Pending(v.db), BATCH), false)) else v
    case Publish(fate) =>
      if v.relay.batch == [] || v.relay.acked || v.relay.batch[0] !in v.db.outbox then v
      else
        var payload := v.db.outbox[v.relay.batch[0]].payload;
        v.(logs := v.logs.(created := Appended(v.logs.created, Event(payload), fate)),
           relay := if fate.Acked? then v.relay.(acked := true) else Relay(v.relay.batch[1..], false))
    case Mark(fault) =>
      if v.relay.batch == [] || !v.relay.acked || v.relay.batch[0] !in v.db.outbox then v
      else
        v.(db := if fault.CallLost? then v.db else Stamp(v.db, v.relay.batch[0]),
           relay := if fault.CallOk? then Relay(v.relay.batch[1..], false) else IDLE)
  }

  function RelayRun(v: RelayView, steps: seq<RelayStep>): RelayView
    decreases |steps|
  {
    if steps == [] then v
    else RelayNext(RelayRun(v, steps[..|steps| - 1]), steps[|steps| - 1])
  }

  /** What happens to one row of a pass: its publish and, if that is acknowledged, its stamp. */
  datatype RowFate = RowFate(publish: Produce, mark: CallFault)

  /** The steps of the first `n` rows of a pass. */
  function PassTrace(fates: nat -> RowFate, n: nat): seq<RelayStep> {
    if n == 0 then [Select]
    else PassTrace(fates, n - 1) + [Publish(fates(n - 1).publish), Mark(fates(n - 1).mark)]
  }

  lemma RelayRunTwo(v: RelayView, steps: seq<RelayStep>, a: RelayStep, b: RelayStep)
    ensures RelayRun(v, steps + [a, b]) == RelayNext(RelayNext(RelayRun(v, steps), a), b)
  {
    assert (steps + [a, b])[..|steps| + 1] == steps + [a];
    assert (steps + [a])[..|steps|] == steps;
  }

  /** The two steps on the first row of the batch taken together. */
  function RowDone(v: RelayView, fate: RowFate): RelayView {
    if v.relay.batch == [] || v.relay.batch[0] !in v.db.outbox then v
    else
      var row := v.relay.batch[0];
      RelayView(
        if fate.publish.Acked? && !fate.mark.CallLost? then Stamp(v.db, row) else v.db,
        v.logs.(created := Appended(v.logs.created, Event(v.db.outbox[row].payload), fate.publish)),
        if fate.publish.Acked? && !fate.mark.CallOk? then IDLE else Relay(v.relay.batch[1..], false))
  }

  /** A pass row by row: the batch is read, then `n` rows are dealt with. */
  function Pass(db: Db, logs: Logs, fates: nat -> RowFate, n: nat): RelayView {
    if n == 0 then RelayView(db, logs, Relay(First(Pending(db), BATCH), false))
    else RowDone(Pass(db, logs, fates, n - 1), fates(n - 1))
  }

  /** The whole pass. */
  function Flushed(db: Db, logs: Logs, fates: nat -> RowFate): RelayView {
    Pass(db, logs, fates, |First(Pending(db), BATCH)|)
  }

  /** A pass is a run of the relay's atomic steps, so a crash inside it leaves what some prefix of
      those steps leaves. */
  lemma {:induction false} PassIsRun(db: Db, logs: Logs, fates: nat -> RowFate, n: nat)
    ensures RelayRun(RelayView(db, logs, IDLE), PassTrace(fates, n)) == Pass(db, logs, fates, n)
    ensures !Pass(db, logs, fates, n).relay.acked
  {
    var v := RelayView(db, logs, IDLE);
    if n == 0 {
      assert PassTrace(fates, 0)[..0] == [];
      assert RelayRun(v, []) == v;
    } else {
      PassIsRun(db, logs, fates, n - 1);
      RelayRunTwo(v, PassTrace(fates, n - 1), Publish(fates(n - 1).publish), Mark(fates(n - 1).mark));
    }
  }

  lemma PassStarts(db: Db, logs: Logs, fates: nat -> RowFate, batch: seq<nat>)
    requires batch == First(Pending(db), BATCH)
    ensures Pass(db, logs, fates, 0) == RelayView(db, logs, Relay(batch[0..], false))
    ensures Flushed(db, logs, fates) == Pass(db, logs, fates, |batch|)
    ensures forall k :: 0 <= k < |batch| ==> batch[k] in db.outbox
  {
    UnpublishedExact(db.outbox, 0, db.nextId);
    assert forall k :: 0 <= k < |batch| ==> batch[k] == Pending(db)[k];
    hide Unpublished;
  }

  lemma PassGrows(db: Db, logs: Logs, fates: nat -> RowFate, n: nat)
    ensures Pass(db, logs, fates, n + 1) == RowDone(Pass(db, logs, fates, n), fates(n))
  {}

  /** Dealing with the next row of a batch. */
  lemma RowDoneIs(v: RelayView, batch: seq<nat>, i: nat, fate: RowFate)
    requires i < |batch| && v.relay == Relay(batch[i..], false) && batch[i] in v.db.outbox
    ensures var row, failed := v.db.outbox[batch[i]], fate.publish.Acked? && !fate.mark.CallOk?;
            var stamped := v.db.(outbox := v.db.outbox[batch[i] := row.(published := true)]);
            RowDone(v, fate)
            == RelayView(if fate.publish.Acked? && !fate.mark.CallLost? then stamped else v.db,
                         v.logs.(created := Appended(v.logs.created, Event(row.payload), fate.publish)),
                         if failed then IDLE else Relay(batch[i + 1..], false))
  {
    assert batch[i..][1..] == batch[i + 1..];
  }

  /** Once a pass has been given up, the rest of it does nothing. */
  lemma {:induction false} AbandonedPass(db: Db, logs: Logs, fates: nat -> RowFate, n: nat, m: nat)
    requires n <= m
    requires Pass(db, logs, fates, n).relay.batch == []
    ensures Pass(db, logs, fates, m) == Pass(db, logs, fates, n)
  {
    if n < m {
      AbandonedPass(db, logs, fates, n, m - 1);
    }
  }

  /** No stamp among those of the first `n` rows fails. */
  ghost predicate Unbroken(fates: nat -> RowFate, n: nat) {
    forall i :: 0 <= i < n && fates(i).publish.Acked? ==> fates(i).mark.CallOk?
  }

  // ---- what a pass does ----------------------------------------------------------------------------

  /** The records the first `n` rows of a batch put into the topic: those whose produce was not lost, in order. */
  function Announced(outbox: map<nat, OutboxRow>, batch: seq<nat>, fates: nat -> RowFate, n: nat)
    : seq<Record<VoyageCreated>>
    requires n <= |batch| && forall k :: 0 <= k < |batch| ==> batch[k] in outbox
  {
    if n == 0 then []
    else Announced(outbox, batch, fates, n - 1)
         + if fates(n - 1).publish == Lost then [] else [Event(outbox[batch[n - 1]].payload)]
  }

  predicate StampFails(fate: RowFate) { fate.publish == Acked && fate.mark != CallOk }

  /** The outbox with those of the first `n` rows stamped that were acknowledged and whose stamp was written. */
  ghost function Marked(outbox: map<nat, OutboxRow>, batch: seq<nat>, fates: nat -> RowFate, n: nat)
    : map<nat, OutboxRow>
    requires n <= |batch|
  {
    map k | k in outbox ::
      if exists i :: 0 <= i < n && batch[i] == k && fates(i).publish == Acked && fates(i).mark != CallLost
      then outbox[k].(published := true) else outbox[k]
  }

  /** A pass dealt with the first `n` rows of the batch, all of them unless the stamp of the last one failed: each was
      published, whatever became of those before it, and stamped if it was acknowledged. Nothing else changed. */
  ghost predicate PassDid(outbox: map<nat, OutboxRow>, created: seq<Record<VoyageCreated>>,
                          outbox': map<nat, OutboxRow>, created': seq<Record<VoyageCreated>>,
                          batch: seq<nat>, fates: nat -> RowFate, n: nat) {
    && n <= |batch| && (forall k :: 0 <= k < |batch| ==> batch[k] in outbox)
    && (forall i :: 0 <= i < n - 1 ==> !StampFails(fates(i)))
    && (n < |batch| ==> n > 0 && StampFails(fates(n - 1)))
    && created' == created + Announced(outbox, batch, fates, n)
    && outbox' == Marked(outbox, batch, fates, n)
  }

  /** Dealing with one row more. */
  lemma MarkedOne(outbox: map<nat, OutboxRow>, batch: seq<nat>, fates: nat -> RowFate, n: nat)
    requires n < |batch| && batch[n] in outbox
    ensures var before := Marked(outbox, batch, fates, n);
            && batch[n] in before && before[batch[n]].payload == outbox[batch[n]].payload
            && Marked(outbox, batch, fates, n + 1)
               == if fates(n).publish == Acked && fates(n).mark != CallLost
                  then before[batch[n] := before[batch[n]].(published := true)] else before
  {}

  /** As long as no stamp has failed, the pass has done its rows and has the others ahead. */
  lemma {:induction false} PassUnbroken(db: Db, logs: Logs, fates: nat -> RowFate, batch: seq<nat>, n: nat)
    requires batch == First(Pending(db), BATCH) && n <= |batch|
    requires forall k :: 0 <= k < |batch| ==> batch[k] in db.outbox
    requires forall i :: 0 <= i < n - 1 ==> !StampFails(fates(i))
    ensures var v := Pass(db, logs, fates, n);
            && v.db == db.(outbox := Marked(db.outbox, batch, fates, n))
            && v.logs == logs.(created := logs.created + Announced(db.outbox, batch, fates, n))
            && v.relay == if n > 0 && StampFails(fates(n - 1)) then IDLE else Relay(batch[n..], false)
  {
    hide First, Pending, RowDone, Marked;
    if n == 0 {
      PassStarts(db, logs, fates, batch);
      NothingMarked(db.outbox, batch, fates);
      assert logs.created + [] == logs.created;
    } else {
      PassUnbroken(db, logs, fates, batch, n - 1);
      PassGrows(db, logs, fates, n - 1);
      MarkedOne(db.outbox, batch, fates, n - 1);
      RowDoneIs(Pass(db, logs, fates, n - 1), batch, n - 1, fates(n - 1));
      hide Pass;
      var a := Announced(db.outbox, batch, fates, n - 1);
      var row := Event(db.outbox[batch[n - 1]].payload);
      assert (logs.created + a) + [row] == logs.created + (a + [row]);
    }
  }

  lemma NothingMarked(outbox: map<nat, OutboxRow>, batch: seq<nat>, fates: nat -> RowFate)
    ensures Marked(outbox, batch, fates, 0) == outbox
  {}

  /** Every pass, for every pattern of failures. */
  lemma PassExact(db: Db, logs: Logs, fates: nat -> RowFate) returns (n: nat)
    ensures var v := Flushed(db, logs, fates);
            PassDid(db.outbox, logs.created, v.db.outbox, v.logs.created, First(Pending(db), BATCH), fates, n)
    ensures n == 0 || !StampFails(fates(n - 1)) <==> Unbroken(fates, |First(Pending(db), BATCH)|)
  {
    var batch := First(Pending(db), BATCH);
    hide First, Pending, Marked, Pass;
    PassStarts(db, logs, fates, batch);
    n := 0;
    while n < |batch| && (n == 0 || !StampFails(fates(n - 1)))
      invariant n <= |batch|
      invariant forall i :: 0 <= i < n - 1 ==> !StampFails(fates(i))
    {
      n := n + 1;
    }
    PassUnbroken(db, logs, fates, batch, n);
    if n < |batch| {
      AbandonedPass(db, logs, fates, n, |batch|);
    }
  }

  class Poller {
    const pg: Postgres
    const kafka: Kafka

    constructor (pg: Postgres, kafka: Kafka)
      ensures this.pg == pg && this.kafka == kafka
    {
      this.pg, this.kafka := pg, kafka;
    }

    /** Reads up to a batch of unpublished ids in id order, unless the query, or reading its rows, fails. */
    method SelectUnpublished(fails: bool) returns (r: Result<seq<nat>, Error>)
      ensures r == if fails then Err(Failed) else Ok(First(Pending(pg.Tables()), BATCH))
      ensures r.Ok? ==> LowestUnstamped(pg.outbox, pg.nextId, r.value)
    {
      hide LowestUnstamped;
      if fails {
        return Err(Failed);
      }
      var batch: seq<nat> := [];
      var id: nat := 0;
      while id < pg.nextId && |batch| < BATCH
        invariant id <= pg.nextId && |batch| <= BATCH
        invariant Unpublished(pg.outbox, 0, pg.nextId) == batch + Unpublished(pg.outbox, id, pg.nextId)
      {
        if id in pg.outbox && !pg.outbox[id].published {
          batch := batch + [id];
        }
        id := id + 1;
      }
      hide First;
      FirstIs(batch, Unpublished(pg.outbox, id, pg.nextId), BATCH);
      FirstIsLowest(pg.Tables());
      r := Ok(batch);
    }

    /** One pass. A failed read of the batch ends it before it starts; a failed publish leaves its row for
        the next pass and goes on; a failed stamp ends the pass with an error. */
    method Flush(selectFails: bool, fates: nat -> RowFate) returns (ok: bool)
      modifies pg`outbox, kafka`created
      ensures RelayView(pg.Tables(), kafka.Contents(), IDLE)
              == if selectFails then old(RelayView(pg.Tables(), kafka.Contents(), IDLE))
                 else Flushed(old(pg.Tables()), old(kafka.Contents()), fates)
      ensures ok <==> !selectFails && Unbroken(fates, |First(Pending(old(pg.Tables())), BATCH)|)
      // a pass that read its batch deals with every row of it up to the first failed stamp
      ensures !selectFails ==>
                exists batch: seq<nat>, n: nat ::
                  && LowestUnstamped(old(pg.outbox), old(pg.nextId), batch)
                  && PassDid(old(pg.outbox), old(kafka.created), pg.outbox, kafka.created, batch, fates, n)
                  && (ok <==> n == 0 || !StampFails(fates(n - 1)))
    {
      FirstIsLowest(pg.Tables());
      ghost var n := PassExact(pg.Tables(), kafka.Contents(), fates);
      hide LowestUnstamped, PassDid, Flushed, Unbroken;
      var selected := SelectUnpublished(selectFails);
      if selected.Err? {
        return false;
      }
      ok := FlushBatch(selected.value, fates);
    }

    /** Deals with the rows of a batch one by one. */
    method FlushBatch(batch: seq<nat>, fates: nat -> RowFate) returns (ok: bool)
      requires batch == First(Pending(pg.Tables()), BATCH)
      modifies pg`outbox, kafka`created
      ensures RelayView(pg.Tables(), kafka.Contents(), IDLE)
              == Flushed(old(pg.Tables()), old(kafka.Contents()), fates)
      ensures ok <==> Unbroken(fates, |batch|)
    {
      ghost var db, logs := pg.Tables(), kafka.Contents();
      hide Unpublished, RowDone, Appended, Pass;
      PassStarts(db, logs, fates, batch);
      hide Pending, First;
      var i := 0;
      while i < |batch|
        invariant 0 <= i <= |batch|
        invariant forall k :: 0 <= k < |batch| ==> batch[k] in pg.outbox
        invariant pg.Tables() == db.(outbox := pg.outbox) && kafka.Contents() == logs.(created := kafka.created)
        invariant Pass(db, logs, fates, i) == RelayView(pg.Tables(), kafka.Contents(), Relay(batch[i..], false))
        invariant Unbroken(fates, i)
      {
        RowDoneIs(Pass(db, logs, fates, i), batch, i, fates(i));
        PassGrows(db, logs, fates, i);
        var failed := PublishRow(batch[i], fates(i));
        i := i + 1;
        if failed {
          AbandonedPass(db, logs, fates, i, |batch|);
          return false;
        }
      }
      ok := true;
    }

    /** Publishes one row and, once the broker has acknowledged it, stamps it. */
    method PublishRow(id: nat, fate: RowFate) returns (failed: bool)
      requires id in pg.outbox
      modifies pg`outbox, kafka`created
      ensures kafka.created == Appended(old(kafka.created), Event(old(pg.outbox)[id].payload), fate.publish)
      ensures pg.outbox == if fate.publish.Acked? && !fate.mark.CallLost?
                           then old(pg.outbox)[id := old(pg.outbox)[id].(published := true)] else old(pg.outbox)
      ensures failed == (fate.publish.Acked? && !fate.mark.CallOk?)
    {
      kafka.created := Appended(kafka.created, Event(pg.outbox[id].payload), fate.publish);
      if !fate.publish.Acked? {
        return false;
      }
      if !fate.mark.CallLost? {
        pg.outbox := pg.outbox[id := pg.outbox[id].(published := true)];
      }
      failed := !fate.mark.CallOk?;
    }
  }
}
