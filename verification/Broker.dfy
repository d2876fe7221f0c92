/** The Kafka broker as the services see it: append-only topics of one partition each, and the
    committed offset of each consumer group. */
module Broker {
  import opened Voyages

  datatype Logs = Logs(
    created: seq<Record<VoyageCreated>>,
    ready: seq<Record<EstimateReady>>,
    createdDlq: seq<Record<VoyageCreated>>,
    readyDlq: seq<Record<EstimateReady>>,
    estimatorCommitted: nat,
    voyageCommitted: nat)

  const EMPTY_LOGS := Logs([], [], [], [], 0, 0)

  /** The fate of one synchronous produce: acknowledged, never written, or written with the
      acknowledgement lost. */
  datatype Produce = Acked | Lost | Unacked

  function Appended<T>(log: seq<T>, x: T, fate: Produce): seq<T> {
    if fate.Lost? then log else log + [x]
  }

  /** A group member's place in its partition. Offsets [next, position) are fetched and not yet
      handled; `committable` are the offsets of this batch whose handling succeeded. */
  datatype Cursor = Cursor(next: nat, position: nat, committable: seq<nat>)

  predicate Idle(cur: Cursor) { cur.next == cur.position && cur.committable == [] }

  /** A restarted member resumes at the committed offset. */
  function Resume(committed: nat): Cursor { Cursor(committed, committed, []) }

  /** A poll returns up to `n` records, never past the end of the partition. */
  function Fetched(cur: Cursor, n: nat, end: nat): Cursor {
    if Idle(cur) && cur.position < end
    then cur.(position := if cur.position + n <= end then cur.position + n else end)
    else cur
  }

  function Handled(cur: Cursor, succeeded: bool): Cursor {
    cur.(next := cur.next + 1, committable := if succeeded then cur.committable + [cur.next] else cur.committable)
  }

  /** Committing a list of records stores the offset after the last one. */
  function CommitOffset(cur: Cursor): nat
    requires cur.committable != []
  {
    cur.committable[|cur.committable| - 1] + 1
  }

  class Kafka {
    var created: seq<Record<VoyageCreated>>
    var ready: seq<Record<EstimateReady>>
    var createdDlq: seq<Record<VoyageCreated>>
    var readyDlq: seq<Record<EstimateReady>>
    var estimatorCommitted: nat
    var voyageCommitted: nat

    function Contents(): Logs
      reads this
    {
      Logs(created, ready, createdDlq, readyDlq, estimatorCommitted, voyageCommitted)
    }

    constructor ()
      ensures Contents() == EMPTY_LOGS
    {
      created, ready, createdDlq, readyDlq := [], [], [], [];
      estimatorCommitted, voyageCommitted := 0, 0;
    }
  }
}
