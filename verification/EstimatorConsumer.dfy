/** services/estimator/adapters/kafka/consumer.go: price each voyage.created record, publish
    estimate.ready, then commit. */
module EstimatorConsumer {
  import opened Voyages
  import opened Money
  import opened Broker
  import opened Polling

  datatype EstView = EstView(logs: Logs, cur: Cursor)

  /** The environment of one record: whether its estimate encodes, and the fate of its produce
      (to estimate.ready, or to the dead-letter topic if it does not decode). */
  datatype EstFate = EstFate(encodes: bool, produce: Produce)

  type EstStep = LoopStep<EstFate>

  /** The effect of handling one record, and whether its offset is safe to commit. */
  function EstEffect(rate: Money, logs: Logs, r: Record<VoyageCreated>, fate: EstFate): (Logs, bool) {
    match r
    case Garbage(_) =>
      (logs.(createdDlq := Appended(logs.createdDlq, r, fate.produce)), true)
    case Event(vc) =>
      match PriceOf(vc.content, rate)
      case Err(_) => (logs, true)
      case Ok(cost) =>
        if !fate.encodes then (logs, false)
        else
          var er := Event(BuildEstimateReady(vc, cost));
          (logs.(ready := Appended(logs.ready, er, fate.produce)), fate.produce.Acked?)
  }

  function EstNext(rate: Money, v: EstView, step: EstStep): EstView {
    match step
    case FetchStep(n) => v.(cur := Fetched(v.cur, n, |v.logs.created|))
    case HandleStep(fate) =>
      if v.cur.next < v.cur.position && v.cur.next < |v.logs.created| then
        var (logs, succeeded) := EstEffect(rate, v.logs, v.logs.created[v.cur.next], fate);
        EstView(logs, Handled(v.cur, succeeded))
      else v
    case CommitStep(stored) =>
      if v.cur.next == v.cur.position && v.cur.committable != [] then
        EstView(if stored then v.logs.(estimatorCommitted := CommitOffset(v.cur)) else v.logs,
                v.cur.(committable := []))
      else v
    case RestartStep => v.(cur := Resume(v.logs.estimatorCommitted))
  }

  function EstLoop(rate: Money): (EstView, EstStep) -> EstView { (v, step) => EstNext(rate, v, step) }

  lemma EstNextHandle(rate: Money, v: EstView, fate: EstFate)
    requires v.cur.next < v.cur.position <= |v.logs.created|
    ensures var e := EstEffect(rate, v.logs, v.logs.created[v.cur.next], fate);
            EstNext(rate, v, HandleStep(fate))
            == EstView(e.0, Cursor(v.cur.next + 1, v.cur.position,
                                   if e.1 then v.cur.committable + [v.cur.next] else v.cur.committable))
  {}

  // ---- what a poll commits -----------------------------------------------------------------------

  /** The record at `o` was delivered to the poll that started at `pos`, and is done with: it is undecodable, has
      no price, or its estimate was encoded and acknowledged. */
  ghost predicate EstSucceeded(rate: Money, log: seq<Record<VoyageCreated>>, pos: nat, fates: seq<EstFate>, o: int) {
    && pos <= o < |log| && o - pos < |fates|
    && (log[o].Event? && HasPrice(rate, log[o].value.content) ==>
          fates[o - pos].encodes && fates[o - pos].produce == Acked)
  }

  /** How the committed offset moves over a poll: if the commit is stored and something succeeded, to just above the
      last success; otherwise not at all. */
  ghost predicate EstCommits(rate: Money, log: seq<Record<VoyageCreated>>, pos: nat, poll: Poll<EstFate>,
                             before: nat, after: nat) {
    if poll.stored && exists o :: EstSucceeded(rate, log, pos, poll.fates, o) then
      && after > 0 && EstSucceeded(rate, log, pos, poll.fates, after - 1)
      && forall o :: EstSucceeded(rate, log, pos, poll.fates, o) ==> o < after
    else
      after == before
  }

  lemma EstVerdict(rate: Money, logs: Logs, log: seq<Record<VoyageCreated>>, pos: nat, fates: seq<EstFate>, o: nat)
    requires pos <= o < |log| && o - pos < |fates|
    ensures EstEffect(rate, logs, log[o], fates[o - pos]).1 <==> EstSucceeded(rate, log, pos, fates, o)
  {
    if log[o].Event? {
      PriceExact(rate, log[o].value.content);
    }
    hide PriceOf, HasPrice;
  }

  /** What a batch has collected: exactly its successes so far, in order. */
  ghost predicate EstCollected(rate: Money, v: EstView, fates: seq<EstFate>, n: nat, u: EstView) {
    && u.logs == v.logs.(ready := u.logs.ready, createdDlq := u.logs.createdDlq)
    && u.cur.next == v.cur.position + n
    && u.cur.position == (if v.cur.position + |fates| <= |v.logs.created| then v.cur.position + |fates|
                          else |v.logs.created|)
    && (forall o :: o in u.cur.committable <==>
          EstSucceeded(rate, v.logs.created, v.cur.position, fates, o) && o < v.cur.position + n)
    && (forall i, j :: 0 <= i < j < |u.cur.committable| ==> u.cur.committable[i] < u.cur.committable[j])
  }

  lemma EstCollectsOne(rate: Money, v: EstView, fates: seq<EstFate>, n: nat, u: EstView)
    requires n < |fates| && v.cur.position + n < |v.logs.created| && EstCollected(rate, v, fates, n, u)
    ensures EstCollected(rate, v, fates, n + 1, EstNext(rate, u, HandleStep(fates[n])))
  {
    hide EstNext, EstEffect, EstSucceeded;
    var o, c := v.cur.position + n, u.cur.committable;
    EstVerdict(rate, u.logs, v.logs.created, v.cur.position, fates, o);
    EstNextHandle(rate, u, fates[n]);
    EstEffectFrame(rate, u.logs, v.logs.created[o], fates[n]);
    var u' := EstNext(rate, u, HandleStep(fates[n]));
    assert forall i :: 0 <= i < |c| ==> c[i] in c;
    assert forall x :: x in c + [o] <==> x in c || x == o;
    assert u'.cur.committable == if EstSucceeded(rate, v.logs.created, v.cur.position, fates, o) then c + [o] else c;
  }

  lemma EstEffectFrame(rate: Money, logs: Logs, r: Record<VoyageCreated>, fate: EstFate)
    ensures var logs' := EstEffect(rate, logs, r, fate).0;
            logs' == logs.(ready := logs'.ready, createdDlq := logs'.createdDlq)
  {
    hide PriceOf;
  }

  lemma {:induction false} EstBatchCollects(rate: Money, v: EstView, fates: seq<EstFate>, n: nat)
    requires v.cur == Resume(v.cur.position) && v.cur.position + n <= |v.logs.created| && n <= |fates|
    ensures EstCollected(rate, v, fates, n, Batch(EstLoop(rate), v, fates, n))
  {
    hide EstCollected, EstNext, Batch;
    if n == 0 {
      BatchStarts(EstLoop(rate), v, fates);
      EstCollectsNothing(rate, v, fates);
    } else {
      EstBatchCollects(rate, v, fates, n - 1);
      EstCollectsOne(rate, v, fates, n - 1, Batch(EstLoop(rate), v, fates, n - 1));
      BatchGrows(EstLoop(rate), v, fates, n - 1);
    }
  }

  lemma EstCollectsNothing(rate: Money, v: EstView, fates: seq<EstFate>)
    requires v.cur == Resume(v.cur.position) && v.cur.position <= |v.logs.created|
    ensures EstCollected(rate, v, fates, 0, EstNext(rate, v, FetchStep(|fates|)))
  {}

  /** A poll handles what it is delivered once, from its position on, and commits the last success. */
  lemma EstPollCommits(rate: Money, v: EstView, poll: Poll<EstFate>)
    requires v.cur == Resume(v.cur.position) && v.cur.position <= |v.logs.created|
    ensures var u, pos := Polled(EstLoop(rate), v, poll), v.cur.position;
            && u.cur == Resume(if pos + |poll.fates| <= |v.logs.created| then pos + |poll.fates| else |v.logs.created|)
            && u.logs.created == v.logs.created
            && EstCommits(rate, v.logs.created, pos, poll, v.logs.estimatorCommitted, u.logs.estimatorCommitted)
  {
    var fates, pos := poll.fates, v.cur.position;
    var n := if pos + |fates| <= |v.logs.created| then |fates| else |v.logs.created| - pos;
    hide EstNext, Batch, EstSucceeded;
    EstBatchCollects(rate, v, fates, n);
    EstExhausted(rate, v, fates, n);
    var u := Batch(EstLoop(rate), v, fates, n);
    EstCommitIs(rate, u, poll.stored);
    EstWithin(rate, v.logs.created, pos, fates, n);
    var c := u.cur.committable;
    if c != [] {
      assert c[|c| - 1] in c;
      assert EstSucceeded(rate, v.logs.created, pos, fates, c[|c| - 1]);
    }
    forall o | EstSucceeded(rate, v.logs.created, pos, fates, o)
      ensures o in c
    {}
  }

  lemma EstWithin(rate: Money, log: seq<Record<VoyageCreated>>, pos: nat, fates: seq<EstFate>, n: nat)
    requires pos <= |log| && n == (if pos + |fates| <= |log| then |fates| else |log| - pos)
    ensures forall o :: EstSucceeded(rate, log, pos, fates, o) ==> o < pos + n
  {}

  lemma EstCommitIs(rate: Money, u: EstView, stored: bool)
    requires u.cur.next == u.cur.position
    ensures var u', c := EstNext(rate, u, CommitStep(stored)), u.cur.committable;
            && u'.cur == Resume(u.cur.position)
            && u'.logs == u.logs.(estimatorCommitted := if stored && c != [] then c[|c| - 1] + 1
                                                        else u.logs.estimatorCommitted)
  {}

  /** With nothing left in the batch, handling does nothing. */
  lemma EstExhausted(rate: Money, v: EstView, fates: seq<EstFate>, n: nat)
    requires n <= |fates|
    requires Batch(EstLoop(rate), v, fates, n).cur.next == Batch(EstLoop(rate), v, fates, n).cur.position
    ensures Batch(EstLoop(rate), v, fates, |fates|) == Batch(EstLoop(rate), v, fates, n)
  {
    hide Batch, EstEffect;
    BatchExhausted(EstLoop(rate), v, fates, n, |fates|);
  }

  class Consumer {
    const kafka: Kafka
    const rate: Money
    var position: nat

    ghost function View(): EstView
      reads this, kafka
    {
      EstView(kafka.Contents(), Cursor(position, position, []))
    }

    constructor (kafka: Kafka, rate: Money)
      ensures this.kafka == kafka && this.rate == rate
      ensures View() == EstView(kafka.Contents(), Resume(kafka.estimatorCommitted))
    {
      this.kafka, this.rate, position := kafka, rate, kafka.estimatorCommitted;
    }

    /** Consumes until the polls run out, as the loop does until its context is cancelled. */
    method Run(polls: seq<Poll<EstFate>>)
      requires position <= |kafka.created|
      modifies this`position, kafka`ready, kafka`createdDlq, kafka`estimatorCommitted
      ensures View() == Looped(EstLoop(rate), old(View()), polls)
      ensures old(position) <= position <= |kafka.created|
    {
      ghost var start := View();
      var p := 0;
      while p < |polls|
        invariant 0 <= p <= |polls|
        invariant old(position) <= position <= |kafka.created|
        invariant View() == Looped(EstLoop(rate), start, polls[..p])
      {
        assert polls[..p + 1][..p] == polls[..p];
        RunOnce(polls[p]);
        p := p + 1;
      }
      assert polls[..p] == polls;
    }

    method RunOnce(poll: Poll<EstFate>)
      requires position <= |kafka.created|
      modifies this`position, kafka`ready, kafka`createdDlq, kafka`estimatorCommitted
      ensures View() == Polled(EstLoop(rate), old(View()), poll)
      ensures old(position) <= position <= |kafka.created|
      // everything delivered is handled, and the last success is committed
      ensures position == old(position) + |poll.fates| || position == |kafka.created|
      ensures EstCommits(rate, kafka.created, old(position), poll, old(kafka.estimatorCommitted),
                         kafka.estimatorCommitted)
    {
      ghost var v := View();
      EstPollCommits(rate, v, poll);
      hide EstCommits;
      var first := position;
      position := if first + |poll.fates| <= |kafka.created| then first + |poll.fates| else |kafka.created|;
      var committable := HandleBatch(first, poll.fates, v);
      if |committable| > 0 {
        if poll.stored {
          kafka.estimatorCommitted := committable[|committable| - 1] + 1;
        }
      }
    }

    /** Handles the records in [first, position) and collects the offsets that may be committed. */
    method HandleBatch(first: nat, fates: seq<EstFate>, ghost v: EstView) returns (committable: seq<nat>)
      requires first <= position <= |kafka.created| && position <= first + |fates|
      requires EstNext(rate, v, FetchStep(|fates|)) == EstView(kafka.Contents(), Cursor(first, position, []))
      modifies kafka`ready, kafka`createdDlq
      ensures Batch(EstLoop(rate), v, fates, |fates|)
              == EstView(kafka.Contents(), Cursor(position, position, committable))
    {
      hide PriceOf, EstNext, EstEffect, Handled, Fetched, Appended;
      BatchStarts(EstLoop(rate), v, fates);
      hide Batch;
      committable := [];
      var n: nat := 0;
      while first + n < position
        invariant first + n <= position
        invariant Batch(EstLoop(rate), v, fates, n)
                  == EstView(kafka.Contents(), Cursor(first + n, position, committable))
      {
        BatchGrows(EstLoop(rate), v, fates, n);
        committable := HandleNext(first + n, fates[n], committable);
        n := n + 1;
      }
      EstExhausted(rate, v, fates, n);
    }

    /** Handles one record of a batch. */
    method HandleNext(offset: nat, fate: EstFate, committable: seq<nat>) returns (extended: seq<nat>)
      requires offset < position <= |kafka.created|
      modifies kafka`ready, kafka`createdDlq
      ensures EstView(kafka.Contents(), Cursor(offset + 1, position, extended))
              == EstNext(rate, EstView(old(kafka.Contents()), Cursor(offset, position, committable)), HandleStep(fate))
    {
      EstNextHandle(rate, EstView(kafka.Contents(), Cursor(offset, position, committable)), fate);
      hide EstNext, EstEffect;
      var succeeded := Handle(offset, fate);
      extended := if succeeded then committable + [offset] else committable;
    }

    /** True when the offset is safe to commit: the estimate was acknowledged, or the record can
        never be priced. */
    method Handle(offset: nat, fate: EstFate) returns (succeeded: bool)
      requires offset < |kafka.created|
      modifies kafka`ready, kafka`createdDlq
      ensures kafka.Contents() == EstEffect(rate, old(kafka.Contents()), kafka.created[offset], fate).0
      ensures succeeded == EstEffect(rate, old(kafka.Contents()), kafka.created[offset], fate).1
      // an undecodable record goes to the dead-letter topic, if that can be written, and is done with either way
      ensures kafka.created[offset].Garbage? ==>
                && succeeded && kafka.ready == old(kafka.ready)
                && kafka.createdDlq
                   == old(kafka.createdDlq) + if fate.produce == Lost then [] else [kafka.created[offset]]
      // a record without a price is done with; one with a price once its exact estimate is encoded and acknowledged
      ensures kafka.created[offset].Event? ==>
                var vc := kafka.created[offset].value;
                && kafka.createdDlq == old(kafka.createdDlq)
                && if !HasPrice(rate, vc.content) then succeeded && kafka.ready == old(kafka.ready)
                   else if !fate.encodes then !succeeded && kafka.ready == old(kafka.ready)
                   else
                     && (succeeded <==> fate.produce == Acked)
                     && kafka.ready == old(kafka.ready)
                        + if fate.produce == Lost then []
                          else [Event(EstimateReady(vc.id, vc.version, Cost(rate, vc.content), rate.currency))]
    {
      if kafka.created[offset].Event? {
        PriceExact(rate, kafka.created[offset].value.content);
      }
      hide PriceOf, HasPrice, Cost;
      match kafka.created[offset] {
        case Garbage(raw) =>
          kafka.createdDlq := Appended(kafka.createdDlq, Garbage(raw), fate.produce);
          succeeded := true;
        case Event(vc) =>
          var cost := PriceOf(vc.content, rate);
          if cost.Err? {
            return true;
          }
          if !fate.encodes {
            return false;
          }
          kafka.ready := Appended(kafka.ready, Event(BuildEstimateReady(vc, cost.value)), fate.produce);
          succeeded := fate.produce.Acked?;
      }
    }
  }
}
