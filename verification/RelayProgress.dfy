/** What passes of the relay achieve: with everything healthy they empty the outbox in id order, a
    batch at a time, publishing each row once; with failures they stamp nothing unacknowledged. */
module RelayProgress {
  import opened Voyages
  import opened Storage
  import opened Broker
  import opened OutboxRelay

  ghost predicate AllIn(ids: seq<nat>, outbox: map<nat, OutboxRow>) {
    forall i :: 0 <= i < |ids| ==> ids[i] in outbox
  }

  function Payloads(outbox: map<nat, OutboxRow>, ids: seq<nat>): seq<Record<VoyageCreated>>
    requires AllIn(ids, outbox)
  {
    seq(|ids|, i requires 0 <= i < |ids| => Event(outbox[ids[i]].payload))
  }

  /** The outbox with the rows in `ids` stamped and no other row changed. */
  function Stamped(outbox: map<nat, OutboxRow>, ids: seq<nat>): map<nat, OutboxRow> {
    map k | k in outbox :: if k in ids then outbox[k].(published := true) else outbox[k]
  }

  ghost predicate IdsBelow(db: Db) { forall k :: k in db.outbox ==> k < db.nextId }

  lemma PendingInOutbox(db: Db)
    ensures AllIn(Pending(db), db.outbox)
    ensures Ascending(Pending(db))
    ensures forall k :: k in Pending(db) <==> k < db.nextId && k in db.outbox && !db.outbox[k].published
  {
    UnpublishedExact(db.outbox, 0, db.nextId);
    assert forall i :: 0 <= i < |Pending(db)| ==> Pending(db)[i] in Pending(db);
  }

  /** A strictly ascending list is determined by its elements. */
  lemma {:induction false} AscendingUnique(a: seq<nat>, b: seq<nat>)
    requires Ascending(a) && Ascending(b)
    requires forall k :: k in a <==> k in b
    ensures a == b
    decreases |a|
  {
    if |b| > 0 {
      assert b[0] in b;
    }
    if |a| > 0 {
      assert a[0] in a;
      assert a[0] in b && b[0] in a;
      assert a[0] == b[0];
      forall k
        ensures k in a[1..] <==> k in b[1..]
      {
        assert k in a[1..] <==> k in a && k != a[0];
        assert k in b[1..] <==> k in b && k != b[0];
      }
      AscendingUnique(a[1..], b[1..]);
    }
  }

  function Healthy(): nat -> RowFate { _ => RowFate(Acked, CallOk) }

  /** A healthy pass after `n` of its rows. */
  lemma {:induction false} HealthyPass(db: Db, logs: Logs, n: nat)
    requires n <= |First(Pending(db), BATCH)|
    requires AllIn(First(Pending(db), BATCH), db.outbox)
    ensures var batch := First(Pending(db), BATCH);
            Pass(db, logs, Healthy(), n)
            == RelayView(db.(outbox := Stamped(db.outbox, batch[..n])),
                         logs.(created := logs.created + Payloads(db.outbox, batch[..n])),
                         Relay(batch[n..], false))
  {
    var batch := First(Pending(db), BATCH);
    hide First, Pending, RowDone, Payloads, Stamped;
    if n == 0 {
      NothingStamped(db.outbox);
      assert batch[..0] == [] && batch[0..] == batch && logs.created + [] == logs.created;
    } else {
      HealthyPass(db, logs, n - 1);
      var id, done := batch[n - 1], batch[..n - 1];
      assert batch[..n] == done + [id];
      StampedTwice(db.outbox, done, [id]);
      StampedOne(Stamped(db.outbox, done), id);
      var v := Pass(db, logs, Healthy(), n - 1);
      RowDoneIs(v, batch, n - 1, RowFate(Acked, CallOk));
      assert (logs.created + Payloads(db.outbox, done)) + Payloads(v.db.outbox, [id])
          == logs.created + (Payloads(db.outbox, done) + Payloads(v.db.outbox, [id]));
      assert Pass(db, logs, Healthy(), n) == RowDone(v, RowFate(Acked, CallOk));
      hide Pass;
    }
  }

  lemma NothingStamped(outbox: map<nat, OutboxRow>)
    ensures Stamped(outbox, []) == outbox && AllIn([], outbox) && Payloads(outbox, []) == []
  {}

  lemma StampedOne(outbox: map<nat, OutboxRow>, id: nat)
    requires id in outbox
    ensures Stamped(outbox, [id]) == outbox[id := outbox[id].(published := true)]
    ensures AllIn([id], outbox) && Payloads(outbox, [id]) == [Event(outbox[id].payload)]
  {}

  /** Stamping the first pending rows leaves exactly the others pending, in the same order. */
  lemma PendingAfter(db: Db, n: nat)
    requires IdsBelow(db)
    ensures Pending(db.(outbox := Stamped(db.outbox, First(Pending(db), n)))) == Rest(Pending(db), n)
  {
    var ids := Pending(db);
    var db' := db.(outbox := Stamped(db.outbox, First(ids, n)));
    PendingInOutbox(db);
    PendingInOutbox(db');
    hide Pending;
    FirstRestPartition(ids, n);
    AscendingUnique(Pending(db'), Rest(ids, n));
  }

  lemma FirstRestPartition(ids: seq<nat>, n: nat)
    requires Ascending(ids)
    ensures forall k :: k in Rest(ids, n) <==> k in ids && k !in First(ids, n)
    ensures Ascending(Rest(ids, n))
  {
    forall k
      ensures k in Rest(ids, n) <==> k in ids && k !in First(ids, n)
    {
      if k in Rest(ids, n) {
        var j :| 0 <= j < |Rest(ids, n)| && Rest(ids, n)[j] == k;
        assert ids[n + j] == k;
        assert forall i :: 0 <= i < n ==> First(ids, n)[i] == ids[i] < k;
      }
      if k in ids {
        var j :| 0 <= j < |ids| && ids[j] == k;
        if j < n {
          assert First(ids, n)[j] == k;
        } else {
          assert Rest(ids, n)[j - n] == k;
        }
      }
    }
  }

  /** `count` passes, one after the other, with nothing failing and nothing being created. */
  function Passes(db: Db, logs: Logs, count: nat): RelayView {
    if count == 0 then RelayView(db, logs, IDLE)
    else
      var v := Passes(db, logs, count - 1);
      Flushed(v.db, v.logs, Healthy())
  }

  lemma FirstAndRest(ids: seq<nat>, n: nat, m: nat)
    ensures First(ids, n) + First(Rest(ids, n), m) == First(ids, n + m)
    ensures Rest(Rest(ids, n), m) == Rest(ids, n + m)
  {}

  /** The first `n` pending rows are stamped and nothing else in the tables changed, each of those rows
      has been published once, in id order, and the rest are pending in their old order. */
  ghost predicate Progressed(db: Db, logs: Logs, v: RelayView, n: nat) {
    var ids := First(Pending(db), n);
    && AllIn(ids, db.outbox)
    && v == RelayView(db.(outbox := Stamped(db.outbox, ids)),
                      logs.(created := logs.created + Payloads(db.outbox, ids)), IDLE)
    && Pending(v.db) == Rest(Pending(db), n)
  }

  /** After `count` healthy passes over u pending rows, the min(u, 100 * count) lowest ids have been
      published exactly once each, in id order, and stamped; the others are as they were. */
  lemma {:induction false} PassesProgress(db: Db, logs: Logs, count: nat)
    requires IdsBelow(db)
    ensures Progressed(db, logs, Passes(db, logs, count), 100 * count)
  {
    if count == 0 {
      NoProgress(db, logs);
    } else {
      PassesProgress(db, logs, count - 1);
      OneMorePass(db, logs, Passes(db, logs, count - 1), BATCH * (count - 1));
      hide Progressed;
    }
  }

  lemma NoProgress(db: Db, logs: Logs)
    ensures Progressed(db, logs, RelayView(db, logs, IDLE), 0)
  {
    assert Stamped(db.outbox, First(Pending(db), 0)) == db.outbox;
  }

  lemma FirstOf(ids: seq<nat>, n: nat)
    ensures forall i :: 0 <= i < |First(ids, n)| ==> First(ids, n)[i] == ids[i]
  {}

  /** A healthy pass when the first `n` rows are done. */
  lemma OneMorePass(db: Db, logs: Logs, v: RelayView, n: nat)
    requires IdsBelow(db) && Progressed(db, logs, v, n)
    ensures Progressed(db, logs, Flushed(v.db, v.logs, Healthy()), n + BATCH)
  {
    hide Flushed, Pending, First, Rest, Stamped, Payloads, AllIn;
    var done, batch := First(Pending(db), n), First(Pending(v.db), BATCH);
    StampedKeys(db.outbox, done);
    NextBatch(db, v, n);
    HealthyFlush(v.db, v.logs);
    PendingAfter(db, n + BATCH);
    StampedTwice(db.outbox, done, batch);
    var a, b := Payloads(db.outbox, done), Payloads(v.db.outbox, batch);
    assert (logs.created + a) + b == logs.created + (a + b);
  }

  lemma StampedKeys(outbox: map<nat, OutboxRow>, ids: seq<nat>)
    ensures Stamped(outbox, ids).Keys == outbox.Keys
  {}

  /** A whole healthy pass. */
  lemma HealthyFlush(db: Db, logs: Logs)
    requires AllIn(First(Pending(db), BATCH), db.outbox)
    ensures var batch := First(Pending(db), BATCH);
            Flushed(db, logs, Healthy())
            == RelayView(db.(outbox := Stamped(db.outbox, batch)),
                         logs.(created := logs.created + Payloads(db.outbox, batch)), IDLE)
  {
    var batch := First(Pending(db), BATCH);
    HealthyPass(db, logs, |batch|);
    hide First, Pending, Pass, Stamped, Payloads;
    assert batch[..|batch|] == batch && batch[|batch|..] == [];
  }

  lemma NextBatch(db: Db, v: RelayView, n: nat)
    requires Pending(v.db) == Rest(Pending(db), n) && v.db.outbox.Keys == db.outbox.Keys
    ensures var batch := First(Pending(v.db), BATCH);
            && First(Pending(db), n + BATCH) == First(Pending(db), n) + batch
            && AllIn(batch, v.db.outbox) && AllIn(batch, db.outbox)
  {
    PendingInOutbox(v.db);
    FirstAndRest(Pending(db), n, BATCH);
    FirstOf(Pending(v.db), BATCH);
    hide Pending;
  }

  lemma StampedTwice(outbox: map<nat, OutboxRow>, a: seq<nat>, b: seq<nat>)
    requires AllIn(a, outbox) && AllIn(b, outbox)
    ensures AllIn(a + b, outbox) && AllIn(b, Stamped(outbox, a))
    ensures Stamped(Stamped(outbox, a), b) == Stamped(outbox, a + b)
    ensures Payloads(outbox, a + b) == Payloads(outbox, a) + Payloads(Stamped(outbox, a), b)
  {}

  /** ceil(u / 100) healthy passes empty an outbox with u pending rows, and no fewer do. */
  lemma PassesEmptyTheOutbox(db: Db, logs: Logs, count: nat)
    requires IdsBelow(db)
    ensures (forall k :: k in Passes(db, logs, count).db.outbox ==> Passes(db, logs, count).db.outbox[k].published)
            <==> 100 * count >= |Pending(db)|
  {
    PendingInOutbox(db);
    PassesProgress(db, logs, count);
    var db' := Passes(db, logs, count).db;
    PendingInOutbox(db');
    hide Pending, Passes;
    assert Pending(db') == [] <==> BATCH * count >= |Pending(db)|;
    if Pending(db') != [] {
      assert Pending(db')[0] in Pending(db');
    }
  }

  /** How a row may differ after a pass: stamped, with its payload among the records the pass added
      and its publish acknowledged. */
  ghost predicate StampEarned(db: Db, logs: Logs, v: RelayView, batch: seq<nat>, fates: nat -> RowFate, n: nat, k: nat)
    requires k in db.outbox && k in v.db.outbox && |logs.created| <= |v.logs.created|
  {
    && v.db.outbox[k] == db.outbox[k].(published := true)
    && Event(db.outbox[k].payload) in v.logs.created[|logs.created|..]
    && exists i :: 0 <= i < n && i < |batch| && batch[i] == k && fates(i).publish.Acked?
  }

  ghost predicate PassSafe(db: Db, logs: Logs, v: RelayView, batch: seq<nat>, fates: nat -> RowFate, n: nat) {
    && logs.created <= v.logs.created
    && v.db == db.(outbox := v.db.outbox) && v.logs == logs.(created := v.logs.created)
    && v.db.outbox.Keys == db.outbox.Keys
    && forall k :: k in db.outbox && v.db.outbox[k] != db.outbox[k] ==> StampEarned(db, logs, v, batch, fates, n, k)
  }

  lemma RowSafe(db: Db, logs: Logs, u: RelayView, batch: seq<nat>, fates: nat -> RowFate, n: nat)
    requires PassSafe(db, logs, u, batch, fates, n) && n < |batch|
    requires u.relay.batch != [] && u.relay.batch[0] == batch[n] && batch[n] in db.outbox
    ensures PassSafe(db, logs, RowDone(u, fates(n)), batch, fates, n + 1)
  {
    var v := RowDone(u, fates(n));
    var r := Event(u.db.outbox[batch[n]].payload);
    var suffix := u.logs.created[|logs.created|..];
    assert v.logs.created[|logs.created|..] == Appended(suffix, r, fates(n).publish);
    forall k | k in db.outbox && v.db.outbox[k] != db.outbox[k]
      ensures StampEarned(db, logs, v, batch, fates, n + 1, k)
    {
      if u.db.outbox[k] != db.outbox[k] {
        assert StampEarned(db, logs, u, batch, fates, n, k);
      } else {
        assert k == batch[n] && fates(n).publish.Acked?;
      }
    }
  }

  /** Whatever fails, a pass only adds to the topic, leaves every row's payload alone, and stamps a
      row only if it was read in this pass and its publish acknowledged, so its payload is among the
      records this pass added. A stamp is never taken back. */
  lemma {:induction false} FlushStampsOnlyAcked(db: Db, logs: Logs, fates: nat -> RowFate, n: nat)
    requires n <= |First(Pending(db), BATCH)|
    ensures var v := Pass(db, logs, fates, n);
            && PassSafe(db, logs, v, First(Pending(db), BATCH), fates, n)
            && (v.relay.batch == [] || v.relay.batch == First(Pending(db), BATCH)[n..])
  {
    hide First, Pending, RowDone, PassSafe, AllIn;
    var batch := First(Pending(db), BATCH);
    BatchInOutbox(db);
    if n == 0 {
      UntouchedSafe(db, logs, batch, fates);
      assert batch[0..] == batch;
    } else {
      FlushStampsOnlyAcked(db, logs, fates, n - 1);
      StepSafe(db, logs, Pass(db, logs, fates, n - 1), batch, fates, n - 1);
    }
  }

  lemma BatchInOutbox(db: Db)
    ensures AllIn(First(Pending(db), BATCH), db.outbox)
  {
    PendingInOutbox(db);
    FirstOf(Pending(db), BATCH);
    hide Pending;
  }

  /** Dealing with one more row. */
  lemma StepSafe(db: Db, logs: Logs, u: RelayView, batch: seq<nat>, fates: nat -> RowFate, n: nat)
    requires PassSafe(db, logs, u, batch, fates, n) && AllIn(batch, db.outbox) && n < |batch|
    requires u.relay.batch == [] || u.relay.batch == batch[n..]
    ensures var v := RowDone(u, fates(n));
            PassSafe(db, logs, v, batch, fates, n + 1) && (v.relay.batch == [] || v.relay.batch == batch[n + 1..])
  {
    hide StampEarned;
    if u.relay.batch != [] {
      assert u.relay.batch[0] == batch[n] && u.relay.batch[1..] == batch[n + 1..];
      RowSafe(db, logs, u, batch, fates, n);
    } else {
      SafeLonger(db, logs, u, batch, fates, n);
    }
  }

  lemma UntouchedSafe(db: Db, logs: Logs, batch: seq<nat>, fates: nat -> RowFate)
    ensures PassSafe(db, logs, RelayView(db, logs, Relay(batch, false)), batch, fates, 0)
  {}

  lemma SafeLonger(db: Db, logs: Logs, u: RelayView, batch: seq<nat>, fates: nat -> RowFate, n: nat)
    requires PassSafe(db, logs, u, batch, fates, n)
    ensures PassSafe(db, logs, u, batch, fates, n + 1)
  {
    forall k | k in db.outbox && u.db.outbox[k] != db.outbox[k]
      ensures StampEarned(db, logs, u, batch, fates, n + 1, k)
    {
      assert StampEarned(db, logs, u, batch, fates, n, k);
    }
  }
}
