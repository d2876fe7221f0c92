/** Whole runs of the durable queue: appends and acks that complete or stop anywhere, and reopening.
    Input and output errors are fail-stop: after one, the next thing to happen is a reopen. */
module QueueRuns {
  import opened Wrappers
  import opened Merge
  import opened JsonlText
  import opened QueueStore

  datatype FileStep =
    | DoAppend(op: Operation, io: Io)
    | DoAck(id: string, io: Io)
    | Reopen(opens: bool)

  /** Whatever a file replays to, every entry sits under its own id. */
  lemma ReplayKeyed(codec: Codec, data: Bytes)
    ensures Replay(codec, data).Some? ==> Keyed(Replay(codec, data).value)
  {
    var ops := Parse(codec, data);
    if ops.Some? { ApplyKeyed(map[], ops.value); }
  }

  lemma {:induction false} ApplyKeyed(m: map<string, Operation>, ops: seq<Operation>)
    requires Keyed(m)
    ensures Keyed(Apply(m, ops))
    decreases |ops|
  {
    if ops != [] { ApplyKeyed(m, ops[..|ops| - 1]); }
  }

  ghost function FileNext(codec: Codec, q: Queue, step: FileStep): (r: Queue)
    requires Keyed(q.ops)
    ensures Keyed(r.ops)
  {
    match step
    case DoAppend(op, io) => if q.running then AfterAppend(codec, q, op, io) else q
    case DoAck(id, io) => if q.running then AfterAck(codec, q, id, io) else q
    case Reopen(opens) =>
      ReplayKeyed(codec, q.file);
      Reopened(codec, q, opens)
  }

  /** What a step is meant to do to the durable map. */
  function Intended(m: map<string, Operation>, step: FileStep): map<string, Operation> {
    match step
    case DoAppend(op, _) => m[op.id := op]
    case DoAck(id, _) => m - {id}
    case Reopen(_) => m
  }

  /** The file is readable, what it holds fits, and while the store is running it holds exactly the map
      in memory. */
  ghost predicate QueueInv(codec: Codec, q: Queue) {
    && Keyed(q.ops)
    && Replay(codec, q.file).Some?
    && Agree(codec, q.file, Replay(codec, q.file).value)
    && (q.running ==> Replay(codec, q.file) == Some(q.ops))
  }

  /** If the step writes a line, the line fits the scanner. */
  predicate WritesFitting(codec: Codec, q: Queue, step: FileStep) {
    step.DoAppend? && q.running && Reaches(step.io, 1) ==> FitsLine(codec, step.op)
  }

  /** Wherever the step stops, reopening finds the map from before it or the map it intended, and if it
      completes the latter; either way the file stays readable. */
  ghost predicate Atomic(codec: Codec, q: Queue, step: FileStep, q': Queue)
    requires QueueInv(codec, q)
  {
    && QueueInv(codec, q')
    && var before, after := Replay(codec, q.file).value, Replay(codec, q'.file).value;
    && (after == before || after == Intended(before, step))
    && (q.running && q'.running ==> after == Intended(before, step))
  }

  lemma AppendIsAtomic(codec: Codec, q: Queue, op: Operation, io: Io)
    requires QueueInv(codec, q) && q.running && FitsLine(codec, op)
    ensures Atomic(codec, q, DoAppend(op, io), AfterAppend(codec, q, op, io))
  {
    AppendAgrees(codec, q.file, q.ops, op);
    assert q.file + [] == q.file;
    hide Line, Replay, Fitting, Terminated, FitsLine, Lawful;
  }

  lemma RemovalAgrees(codec: Codec, q: Queue, id: string)
    requires QueueInv(codec, q) && q.running
    ensures Agree(codec, Compacted(codec, q.ops - {id}), q.ops - {id})
  {
    hide Replay, Terminated, FitsLine, Lawful, Compacted;
    assert Agree(codec, q.file, q.ops);
    assert Keyed(q.ops - {id}) && Fitting(codec, q.ops - {id});
    hide Keyed, Fitting;
    CompactedAgrees(codec, q.ops - {id});
  }

  lemma AckIsAtomic(codec: Codec, q: Queue, id: string, io: Io)
    requires QueueInv(codec, q) && q.running
    ensures Atomic(codec, q, DoAck(id, io), AfterAck(codec, q, id, io))
  {
    hide Keyed, Fitting, FitsLine, Lawful, Compacted, Replay, Terminated;
    RemovalAgrees(codec, q, id);
  }

  lemma ReopenIsAtomic(codec: Codec, q: Queue, opens: bool)
    requires QueueInv(codec, q)
    ensures Atomic(codec, q, Reopen(opens), Reopened(codec, q, opens))
  {
    hide Replay, Terminated, Fitting, Lawful;
  }

  /** Every step is atomic on what is durable. */
  lemma FileStepKeeps(codec: Codec, q: Queue, step: FileStep)
    requires QueueInv(codec, q) && WritesFitting(codec, q, step)
    ensures Atomic(codec, q, step, FileNext(codec, q, step))
  {
    match step
    case DoAppend(op, io) =>
      if q.running {
        if Reaches(io, 1) {
          AppendIsAtomic(codec, q, op, io);
        } else {
          UnwrittenIsAtomic(codec, q, op, io);
        }
      }
    case DoAck(id, io) => if q.running { AckIsAtomic(codec, q, id, io); }
    case Reopen(opens) => ReopenIsAtomic(codec, q, opens);
  }

  lemma UnwrittenIsAtomic(codec: Codec, q: Queue, op: Operation, io: Io)
    requires QueueInv(codec, q) && q.running && !Reaches(io, 1)
    ensures Atomic(codec, q, DoAppend(op, io), AfterAppend(codec, q, op, io))
  {
    hide Line, Replay, Fitting, Terminated, FitsLine, Lawful;
    assert q.file + [] == q.file;
  }

  /** A step leaves a file that can be reopened exactly when it does not write an over-long line. */
  lemma FileStepExact(codec: Codec, q: Queue, step: FileStep)
    requires QueueInv(codec, q)
    ensures Replay(codec, FileNext(codec, q, step).file).Some? <==> WritesFitting(codec, q, step)
  {
    if WritesFitting(codec, q, step) {
      FileStepKeeps(codec, q, step);
    } else {
      assert LawfulOn(codec, step.op);
      ReplayAppend(codec, q.file, step.op);
    }
    hide Replay, FitsLine, Line, Lawful, Terminated;
  }

  /** Any sequence of steps, whether or not the appended lines fit. */
  ghost function FileRun(codec: Codec, q: Queue, steps: seq<FileStep>): (r: Queue)
    requires Keyed(q.ops)
    ensures Keyed(r.ops)
    decreases |steps|
  {
    if steps == [] then q
    else FileNext(codec, FileRun(codec, q, steps[..|steps| - 1]), steps[|steps| - 1])
  }

  ghost predicate AllFitting(codec: Codec, q: Queue, steps: seq<FileStep>)
    requires Keyed(q.ops)
    decreases |steps|
  {
    steps != [] ==>
      var n := |steps| - 1;
      AllFitting(codec, q, steps[..n]) && WritesFitting(codec, FileRun(codec, q, steps[..n]), steps[n])
  }

  /** After every prefix of the run the file can be reopened. */
  ghost predicate AlwaysReopens(codec: Codec, q: Queue, steps: seq<FileStep>)
    requires Keyed(q.ops)
    decreases |steps|
  {
    && Replay(codec, FileRun(codec, q, steps).file).Some?
    && (steps != [] ==> AlwaysReopens(codec, q, steps[..|steps| - 1]))
  }

  lemma {:induction false} FileRunKeeps(codec: Codec, q: Queue, steps: seq<FileStep>)
    requires QueueInv(codec, q) && AllFitting(codec, q, steps)
    ensures QueueInv(codec, FileRun(codec, q, steps))
    decreases |steps|
  {
    if steps != [] {
      var n := |steps| - 1;
      FileRunKeeps(codec, q, steps[..n]);
      FileStepKeeps(codec, FileRun(codec, q, steps[..n]), steps[n]);
    }
  }

  /** A queue can be reopened at every moment of a run exactly when no over-long line is written in it. */
  lemma {:induction false} ReopensExact(codec: Codec, q: Queue, steps: seq<FileStep>)
    requires QueueInv(codec, q)
    ensures AlwaysReopens(codec, q, steps) <==> AllFitting(codec, q, steps)
    decreases |steps|
  {
    assert Keyed(q.ops) && Replay(codec, q.file).Some?;
    hide QueueInv, FileNext, WritesFitting, Replay;
    if steps != [] {
      var n := |steps| - 1;
      ReopensExact(codec, q, steps[..n]);
      if AllFitting(codec, q, steps[..n]) {
        FileRunKeeps(codec, q, steps[..n]);
        FileStepExact(codec, FileRun(codec, q, steps[..n]), steps[n]);
      }
    }
  }

  lemma EmptyQueue(codec: Codec)
    requires Lawful(codec)
    ensures QueueInv(codec, Queue([], map[], true))
  {
    assert Apply(map[], []) == map[];
  }

  /** The queue file refines the map: from an empty queue, after any sequence of appends, acks, stops at
      any effect, and reopenings, in which every line written fits the scanner, the file can be reopened,
      and while the store runs reopening would give exactly the map in memory. */
  lemma FileRefinesMap(codec: Codec, steps: seq<FileStep>)
    requires Lawful(codec) && AllFitting(codec, Queue([], map[], true), steps)
    ensures var q := FileRun(codec, Queue([], map[], true), steps);
            && Replay(codec, q.file).Some?
            && (q.running ==> Replay(codec, q.file).value == q.ops)
            && FileNext(codec, q, Reopen(true)).running
  {
    EmptyQueue(codec);
    FileRunKeeps(codec, Queue([], map[], true), steps);
  }

  /** A line over the scanner's limit is written and acknowledged all the same, and the queue cannot be
      reopened then. */
  lemma LongLineBlocksReopen(codec: Codec, q: Queue, op: Operation)
    requires QueueInv(codec, q) && q.running && |codec.marshal(op)| >= 65536
    ensures var q' := FileNext(codec, q, DoAppend(op, Completes));
            q'.running && Replay(codec, q'.file).None? && forall opens :: !FileNext(codec, q', Reopen(opens)).running
  {
    assert LawfulOn(codec, op);
    ReplayAppend(codec, q.file, op);
  }
}
