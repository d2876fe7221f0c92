/** services/voyage/adapters/kafka/estimate_consumer.go: apply each estimate.ready record to its
    voyage, then commit. */
module EstimateConsumer {
  import opened Wrappers
  import opened Voyages
  import opened Storage
  import opened Broker
  import opened Polling

  datatype VoyView = VoyView(voyages: map<string, Row>, logs: Logs, cur: Cursor)

  /** The environment of one record: the fate of the dead-letter produce if it does not decode,
      otherwise of the database call. */
  datatype VoyFate = VoyFate(deadLetter: Produce, db: CallFault)

  type VoyStep = LoopStep<VoyFate>

  /** The rows and topics after handling one record, and whether its offset is safe to commit. */
  function VoyEffect(voyages: map<string, Row>, logs: Logs, r: Record<EstimateReady>, fate: VoyFate)
    : (map<string, Row>, Logs, bool)
  {
    match r
    case Garbage(_) =>
      (voyages, logs.(readyDlq := Appended(logs.readyDlq, r, fate.deadLetter)), true)
    case Event(er) =>
      (if fate.db.CallLost? then voyages else Upsert(voyages, er.id, er.version, er.amountMinor).0,
       logs,
       fate.db.CallOk?)
  }

  function VoyNext(v: VoyView, step: VoyStep): VoyView {
    match step
    case FetchStep(n) => v.(cur := Fetched(v.cur, n, |v.logs.ready|))
    case HandleStep(fate) =>
      if v.cur.next < v.cur.position && v.cur.next < |v.logs.ready| then
        var (voyages, logs, succeeded) := VoyEffect(v.voyages, v.logs, v.logs.ready[v.cur.next], fate);
        VoyView(voyages, logs, Handled(v.cur, succeeded))
      else v
    case CommitStep(stored) =>
      if v.cur.next == v.cur.position && v.cur.committable != [] then
        v.(logs := if stored then v.logs.(voyageCommitted := CommitOffset(v.cur)) else v.logs,
           cur := v.cur.(committable := []))
      else v
    case RestartStep => v.(cur := Resume(v.logs.voyageCommitted))
  }

  function VoyLoop(): (VoyView, VoyStep) -> VoyView { (v, step) => VoyNext(v, step) }

  lemma VoyNextHandle(v: VoyView, fate: VoyFate)
    requires v.cur.next < v.cur.position <= |v.logs.ready|
    ensures var e := VoyEffect(v.voyages, v.logs, v.logs.ready[v.cur.next], fate);
            VoyNext(v, HandleStep(fate))
            == VoyView(e.0, e.1, Cursor(v.cur.next + 1, v.cur.position,
                                        if e.2 then v.cur.committable + [v.cur.next] else v.cur.committable))
  {}

  // ---- what a poll commits -----------------------------------------------------------------------

  /** The record at `o` was delivered to the poll that started at `pos`, and is done with: it is undecodable, or the
      database call on it came back without an error. */
  ghost predicate VoySucceeded(log: seq<Record<EstimateReady>>, pos: nat, fates: seq<VoyFate>, o: int) {
    && pos <= o < |log| && o - pos < |fates|
    && (log[o].Event? ==> fates[o - pos].db == CallOk)
  }

  /** How the committed offset moves over a poll: if the commit is stored and something succeeded, to just above the
      last success; otherwise not at all. */
  ghost predicate VoyCommits(log: seq<Record<EstimateReady>>, pos: nat, poll: Poll<VoyFate>, before: nat, after: nat) {
    if poll.stored && exists o :: VoySucceeded(log, pos, poll.fates, o) then
      && after > 0 && VoySucceeded(log, pos, poll.fates, after - 1)
      && forall o :: VoySucceeded(log, pos, poll.fates, o) ==> o < after
    else
      after == before
  }

  /** What a batch has collected: exactly its successes so far, in order. */
  ghost predicate VoyCollected(v: VoyView, fates: seq<VoyFate>, n: nat, u: VoyView) {
    && u.logs == v.logs.(readyDlq := u.logs.readyDlq)
    && u.cur.next == v.cur.position + n
    && u.cur.position == (if v.cur.position + |fates| <= |v.logs.ready| then v.cur.position + |fates|
                          else |v.logs.ready|)
    && (forall o :: o in u.cur.committable <==>
          VoySucceeded(v.logs.ready, v.cur.position, fates, o) && o < v.cur.position + n)
    && (forall i, j :: 0 <= i < j < |u.cur.committable| ==> u.cur.committable[i] < u.cur.committable[j])
  }

  lemma VoyVerdict(voyages: map<string, Row>, logs: Logs, log: seq<Record<EstimateReady>>, pos: nat,
                   fates: seq<VoyFate>, o: nat)
    requires pos <= o < |log| && o - pos < |fates|
    ensures var effect := VoyEffect(voyages, logs, log[o], fates[o - pos]);
            && (effect.2 <==> VoySucceeded(log, pos, fates, o))
            && effect.1 == logs.(readyDlq := effect.1.readyDlq)
  {
    hide Upsert;
  }

  lemma VoyCollectsOne(v: VoyView, fates: seq<VoyFate>, n: nat, u: VoyView)
    requires n < |fates| && v.cur.position + n < |v.logs.ready| && VoyCollected(v, fates, n, u)
    ensures VoyCollected(v, fates, n + 1, VoyNext(u, HandleStep(fates[n])))
  {
    hide VoyNext, VoyEffect, VoySucceeded;
    var o, c := v.cur.position + n, u.cur.committable;
    VoyVerdict(u.voyages, u.logs, v.logs.ready, v.cur.position, fates, o);
    VoyNextHandle(u, fates[n]);
    var u' := VoyNext(u, HandleStep(fates[n]));
    assert forall i :: 0 <= i < |c| ==> c[i] in c;
    assert forall x :: x in c + [o] <==> x in c || x == o;
    assert u'.cur.committable == if VoySucceeded(v.logs.ready, v.cur.position, fates, o) then c + [o] else c;
  }

  lemma {:induction false} VoyBatchCollects(v: VoyView, fates: seq<VoyFate>, n: nat)
    requires v.cur == Resume(v.cur.position) && v.cur.position + n <= |v.logs.ready| && n <= |fates|
    ensures VoyCollected(v, fates, n, Batch(VoyLoop(), v, fates, n))
  {
    hide VoyCollected, VoyNext, Batch;
    if n == 0 {
      BatchStarts(VoyLoop(), v, fates);
      VoyCollectsNothing(v, fates);
    } else {
      VoyBatchCollects(v, fates, n - 1);
      VoyCollectsOne(v, fates, n - 1, Batch(VoyLoop(), v, fates, n - 1));
      BatchGrows(VoyLoop(), v, fates, n - 1);
    }
  }

  lemma VoyCollectsNothing(v: VoyView, fates: seq<VoyFate>)
    requires v.cur == Resume(v.cur.position) && v.cur.position <= |v.logs.ready|
    ensures VoyCollected(v, fates, 0, VoyNext(v, FetchStep(|fates|)))
  {}

  /** A poll handles what it is delivered once, from its position on, and commits the last success. */
  lemma VoyPollCommits(v: VoyView, poll: Poll<VoyFate>)
    requires v.cur == Resume(v.cur.position) && v.cur.position <= |v.logs.ready|
    ensures var u, pos := Polled(VoyLoop(), v, poll), v.cur.position;
            && u.cur == Resume(if pos + |poll.fates| <= |v.logs.ready| then pos + |poll.fates| else |v.logs.ready|)
            && u.logs.ready == v.logs.ready
            && VoyCommits(v.logs.ready, pos, poll, v.logs.voyageCommitted, u.logs.voyageCommitted)
  {
    var fates, pos := poll.fates, v.cur.position;
    var n := if pos + |fates| <= |v.logs.ready| then |fates| else |v.logs.ready| - pos;
    hide VoyNext, Batch, VoySucceeded;
    VoyBatchCollects(v, fates, n);
    VoyExhausted(v, fates, n);
    var u := Batch(VoyLoop(), v, fates, n);
    VoyCommitIs(u, poll.stored);
    VoyWithin(v.logs.ready, pos, fates, n);
    var c := u.cur.committable;
    if c != [] {
      assert c[|c| - 1] in c;
      assert VoySucceeded(v.logs.ready, pos, fates, c[|c| - 1]);
    }
    forall o | VoySucceeded(v.logs.ready, pos, fates, o)
      ensures o in c
    {}
  }

  lemma VoyWithin(log: seq<Record<EstimateReady>>, pos: nat, fates: seq<VoyFate>, n: nat)
    requires pos <= |log| && n == (if pos + |fates| <= |log| then |fates| else |log| - pos)
    ensures forall o :: VoySucceeded(log, pos, fates, o) ==> o < pos + n
  {}

  lemma VoyCommitIs(u: VoyView, stored: bool)
    requires u.cur.next == u.cur.position
    ensures var u', c := VoyNext(u, CommitStep(stored)), u.cur.committable;
            && u'.cur == Resume(u.cur.position)
            && u'.logs == u.logs.(voyageCommitted := if stored && c != [] then c[|c| - 1] + 1
                                                     else u.logs.voyageCommitted)
  {}

  /** With nothing left in the batch, handling does nothing. */
  lemma VoyExhausted(v: VoyView, fates: seq<VoyFate>, n: nat)
    requires n <= |fates|
    requires Batch(VoyLoop(), v, fates, n).cur.next == Batch(VoyLoop(), v, fates, n).cur.position
    ensures Batch(VoyLoop(), v, fates, |fates|) == Batch(VoyLoop(), v, fates, n)
  {
    hide Batch, VoyEffect;
    BatchExhausted(VoyLoop(), v, fates, n, |fates|);
  }

  class Consumer {
    const kafka: Kafka
    const repo: Repository
    var position: nat
    var appliedTotal: nat

    ghost function View(): VoyView
      reads this, kafka, repo.pg
    {
      VoyView(repo.pg.voyages, kafka.Contents(), Cursor(position, position, []))
    }

    constructor (kafka: Kafka, repo: Repository)
      ensures this.kafka == kafka && this.repo == repo && appliedTotal == 0
      ensures View() == VoyView(repo.pg.voyages, kafka.Contents(), Resume(kafka.voyageCommitted))
    {
      this.kafka, this.repo, position, appliedTotal := kafka, repo, kafka.voyageCommitted, 0;
    }

    /** Consumes until the polls run out. */
    method Run(polls: seq<Poll<VoyFate>>)
      requires position <= |kafka.ready|
      modifies this`position, this`appliedTotal, kafka`readyDlq, kafka`voyageCommitted, repo.pg`voyages
      ensures View() == Looped(VoyLoop(), old(View()), polls)
      ensures old(position) <= position <= |kafka.ready|
    {
      ghost var start := View();
      var p := 0;
      while p < |polls|
        invariant 0 <= p <= |polls|
        invariant old(position) <= position <= |kafka.ready|
        invariant View() == Looped(VoyLoop(), start, polls[..p])
      {
        assert polls[..p + 1][..p] == polls[..p];
        RunOnce(polls[p]);
        p := p + 1;
      }
      assert polls[..p] == polls;
    }

    method RunOnce(poll: Poll<VoyFate>)
      requires position <= |kafka.ready|
      modifies this`position, this`appliedTotal, kafka`readyDlq, kafka`voyageCommitted, repo.pg`voyages
      ensures View() == Polled(VoyLoop(), old(View()), poll)
      ensures old(position) <= position <= |kafka.ready|
      // everything delivered is handled, and the last success is committed
      ensures position == old(position) + |poll.fates| || position == |kafka.ready|
      ensures VoyCommits(kafka.ready, old(position), poll, old(kafka.voyageCommitted), kafka.voyageCommitted)
    {
      ghost var v := View();
      VoyPollCommits(v, poll);
      hide VoyCommits;
      var first := position;
      position := if first + |poll.fates| <= |kafka.ready| then first + |poll.fates| else |kafka.ready|;
      var committable := HandleBatch(first, poll.fates, v);
      if |committable| > 0 {
        if poll.stored {
          kafka.voyageCommitted := committable[|committable| - 1] + 1;
        }
      }
    }

    /** Handles the records in [first, position) and collects the offsets that may be committed. */
    method HandleBatch(first: nat, fates: seq<VoyFate>, ghost v: VoyView) returns (committable: seq<nat>)
      requires first <= position <= |kafka.ready| && position <= first + |fates|
      requires VoyNext(v, FetchStep(|fates|))
               == VoyView(repo.pg.voyages, kafka.Contents(), Cursor(first, position, []))
      modifies this`appliedTotal, kafka`readyDlq, repo.pg`voyages
      ensures Batch(VoyLoop(), v, fates, |fates|)
              == VoyView(repo.pg.voyages, kafka.Contents(), Cursor(position, position, committable))
    {
      hide Upsert, VoyNext, VoyEffect, Handled, Fetched, Appended;
      BatchStarts(VoyLoop(), v, fates);
      hide Batch;
      committable := [];
      var n: nat := 0;
      while first + n < position
        invariant first + n <= position
        invariant Batch(VoyLoop(), v, fates, n)
                  == VoyView(repo.pg.voyages, kafka.Contents(), Cursor(first + n, position, committable))
      {
        BatchGrows(VoyLoop(), v, fates, n);
        committable := HandleNext(first + n, fates[n], committable);
        n := n + 1;
      }
      VoyExhausted(v, fates, n);
    }

    /** Handles one record of a batch. */
    method HandleNext(offset: nat, fate: VoyFate, committable: seq<nat>) returns (extended: seq<nat>)
      requires offset < position <= |kafka.ready|
      modifies this`appliedTotal, kafka`readyDlq, repo.pg`voyages
      ensures VoyView(repo.pg.voyages, kafka.Contents(), Cursor(offset + 1, position, extended))
              == VoyNext(VoyView(old(repo.pg.voyages), old(kafka.Contents()), Cursor(offset, position, committable)),
                         HandleStep(fate))
    {
      VoyNextHandle(VoyView(repo.pg.voyages, kafka.Contents(), Cursor(offset, position, committable)), fate);
      hide VoyNext, VoyEffect;
      var succeeded := Handle(offset, fate);
      extended := if succeeded then committable + [offset] else committable;
    }

    /** True when the offset is safe to commit: applied, a benign no-op, or undecodable. The
        counter moves just when the update reports that it changed the row. */
    method Handle(offset: nat, fate: VoyFate) returns (succeeded: bool)
      requires offset < |kafka.ready|
      modifies this`appliedTotal, kafka`readyDlq, repo.pg`voyages
      ensures var effect := VoyEffect(old(repo.pg.voyages), old(kafka.Contents()), kafka.ready[offset], fate);
              repo.pg.voyages == effect.0 && kafka.Contents() == effect.1 && succeeded == effect.2
      // an undecodable record goes to the dead-letter topic, if that can be written, and is done with either way
      ensures kafka.ready[offset].Garbage? ==>
                && succeeded && repo.pg.voyages == old(repo.pg.voyages)
                && kafka.readyDlq
                   == old(kafka.readyDlq) + if fate.deadLetter == Lost then [] else [kafka.ready[offset]]
      // an estimate is written to the row at its version, and is done with if the call came back without an error
      ensures kafka.ready[offset].Event? ==>
                var er, rows := kafka.ready[offset].value, old(repo.pg.voyages);
                && (succeeded <==> fate.db == CallOk) && kafka.readyDlq == old(kafka.readyDlq)
                && repo.pg.voyages
                   == if fate.db != CallLost && er.id in rows && rows[er.id].version == er.version
                         && rows[er.id].estimate != Some(er.amountMinor)
                      then rows[er.id := rows[er.id].(estimate := Some(er.amountMinor))] else rows
      ensures appliedTotal
              == old(appliedTotal) + (if succeeded && repo.pg.voyages != old(repo.pg.voyages) then 1 else 0)
    {
      match kafka.ready[offset] {
        case Garbage(raw) =>
          kafka.readyDlq := Appended(kafka.readyDlq, Garbage(raw), fate.deadLetter);
          succeeded := true;
        case Event(er) =>
          var applied := repo.UpsertEstimate(er.id, er.version, er.amountMinor, fate.db);
          if applied.Err? {
            return false;
          }
          if applied.value {
            appliedTotal := appliedTotal + 1;
          }
          succeeded := true;
      }
    }
  }
}
