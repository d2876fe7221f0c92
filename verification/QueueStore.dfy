/** clients/onboard-sync/adapters/jsonlstore: the durable queue, a map in memory kept in step with an
    append-only file that Ack rewrites. */
module QueueStore {
  import opened Wrappers
  import opened Merge
  import opened JsonlText

  // ---- listings in id order ------------------------------------------------------------------------

  /** Go's string order: lexicographic by bytes, which on UTF-8 is the order of the code points. */
  predicate Less(a: string, b: string) {
    b != [] && (a == [] || a[0] < b[0] || (a[0] == b[0] && Less(a[1..], b[1..])))
  }

  lemma {:induction false} LessTotal(a: string, b: string)
    ensures Less(a, b) || Less(b, a) || a == b
    ensures !(Less(a, b) && Less(b, a)) && !Less(a, a)
  {
    if a != [] && b != [] && a[0] == b[0] {
      LessTotal(a[1..], b[1..]);
      assert a == [a[0]] + a[1..] && b == [b[0]] + b[1..];
    }
    if a != [] {
      LessTotal(a[1..], a[1..]);
    }
  }

  lemma {:induction false} LessTransitive(a: string, b: string, c: string)
    requires Less(a, b) && Less(b, c)
    ensures Less(a, c)
  {
    if a != [] && a[0] == b[0] && b[0] == c[0] {
      LessTransitive(a[1..], b[1..], c[1..]);
    }
  }

  /** The first id is a proper beginning of the second, or has the smaller character where they first differ. */
  ghost predicate Precedes(a: string, b: string) {
    exists p: nat :: p <= |a| && p <= |b| && PrecedesAt(a, b, p)
  }

  ghost predicate PrecedesAt(a: string, b: string, p: nat)
    requires p <= |a| && p <= |b|
  {
    a[..p] == b[..p] && p < |b| && (p == |a| || a[p] < b[p])
  }

  /** That is the order. */
  lemma {:induction false} LessExact(a: string, b: string)
    ensures Less(a, b) <==> Precedes(a, b)
  {
    if a != [] && b != [] && a[0] == b[0] {
      LessExact(a[1..], b[1..]);
      if Precedes(a[1..], b[1..]) {
        var p: nat :| p <= |a[1..]| && p <= |b[1..]| && PrecedesAt(a[1..], b[1..], p);
        assert a[..p + 1] == [a[0]] + a[1..][..p] && b[..p + 1] == [b[0]] + b[1..][..p];
        assert PrecedesAt(a, b, p + 1);
      }
      if Precedes(a, b) {
        var p: nat :| p <= |a| && p <= |b| && PrecedesAt(a, b, p);
        assert p > 0;
        assert a[1..][..p - 1] == a[..p][1..] && b[1..][..p - 1] == b[..p][1..];
        assert PrecedesAt(a[1..], b[1..], p - 1);
      }
    } else if b != [] && (a == [] || a[0] < b[0]) {
      assert PrecedesAt(a, b, 0);
    } else if Precedes(a, b) {
      var p: nat :| p <= |a| && p <= |b| && PrecedesAt(a, b, p);
      HeadsAgree(a, b, p);
    }
  }

  lemma HeadsAgree(a: string, b: string, p: nat)
    requires p <= |a| && p <= |b| && a[..p] == b[..p]
    ensures p > 0 ==> a[0] == b[0]
  {
    if p > 0 {
      assert a[..p][0] == b[..p][0];
    }
  }

  ghost predicate SortedById(ops: seq<Operation>) {
    forall i, j :: 0 <= i < j < |ops| ==> Less(ops[i].id, ops[j].id)
  }

  lemma SortedPrecedes(ops: seq<Operation>)
    requires SortedById(ops)
    ensures forall i, j :: 0 <= i < j < |ops| ==> Precedes(ops[i].id, ops[j].id)
  {
    hide Less, Precedes;
    forall i, j | 0 <= i < j < |ops|
      ensures Precedes(ops[i].id, ops[j].id)
    {
      LessExact(ops[i].id, ops[j].id);
    }
  }

  /** Every entry sits under its own id. */
  ghost predicate Keyed(m: map<string, Operation>) {
    forall id :: id in m ==> m[id].id == id
  }

  /** A strictly ascending list of exactly the entries of the map. */
  ghost predicate Lists(ops: seq<Operation>, m: map<string, Operation>) {
    && SortedById(ops)
    && forall op :: op in ops <==> op.id in m && m[op.id] == op
  }

  /** There is only one such list. */
  lemma {:induction false} ListsUnique(a: seq<Operation>, b: seq<Operation>)
    requires SortedById(a) && SortedById(b)
    requires forall op :: op in a <==> op in b
    ensures a == b
    decreases |a|
  {
    if |b| > 0 {
      assert b[0] in b;
    }
    if |a| > 0 {
      assert a[0] in a;
      assert a[0] in b && b[0] in a;
      LessTotal(a[0].id, b[0].id);
      assert a[0] == b[0];
      forall op
        ensures op in a[1..] <==> op in b[1..]
      {
        LessTotal(a[0].id, a[0].id);
        assert op in a[1..] <==> op in a && op != a[0];
        assert op in b[1..] <==> op in b && op != b[0];
      }
      ListsUnique(a[1..], b[1..]);
    }
  }

  /** Insertion into a sorted list. */
  function Insert(op: Operation, ops: seq<Operation>): seq<Operation> {
    if ops == [] || Less(op.id, ops[0].id) then [op] + ops
    else [ops[0]] + Insert(op, ops[1..])
  }

  /** The standard library's sort. */
  function Sort(ops: seq<Operation>): seq<Operation> {
    if ops == [] then [] else Insert(ops[0], Sort(ops[1..]))
  }

  lemma {:induction false} InsertSorts(op: Operation, ops: seq<Operation>)
    requires SortedById(ops) && forall x :: x in ops ==> x.id != op.id
    ensures SortedById(Insert(op, ops))
    ensures forall x :: x in Insert(op, ops) <==> x == op || x in ops
  {
    if ops != [] {
      assert ops[0] in ops;
      LessTotal(op.id, ops[0].id);
      if Less(op.id, ops[0].id) {
        forall j | 0 < j < |ops|
          ensures Less(op.id, ops[j].id)
        {
          LessTransitive(op.id, ops[0].id, ops[j].id);
        }
      } else {
        InsertSorts(op, ops[1..]);
        var rest := Insert(op, ops[1..]);
        forall j | 0 <= j < |rest|
          ensures Less(ops[0].id, rest[j].id)
        {
          assert rest[j] in rest;
        }
        assert forall x :: x in ops <==> x == ops[0] || x in ops[1..];
      }
    }
  }

  ghost predicate DistinctIds(ops: seq<Operation>) {
    forall i, j :: 0 <= i < j < |ops| ==> ops[i].id != ops[j].id
  }

  lemma {:induction false} SortSorts(ops: seq<Operation>)
    requires DistinctIds(ops)
    ensures SortedById(Sort(ops))
    ensures forall op :: op in Sort(ops) <==> op in ops
  {
    if ops != [] {
      SortSorts(ops[1..]);
      forall x | x in Sort(ops[1..])
        ensures x.id != ops[0].id
      {
        assert x in ops[1..];
      }
      InsertSorts(ops[0], Sort(ops[1..]));
      assert forall x :: x in ops <==> x == ops[0] || x in ops[1..];
    }
  }

  /** The list of a map. */
  ghost function Listing(m: map<string, Operation>): seq<Operation>
    requires Keyed(m)
    ensures Lists(Listing(m), m)
  {
    if m == map[] then []
    else
      var id :| id in m;
      var rest := Listing(m - {id});
      assert forall op :: op in rest ==> op.id != id;
      InsertSorts(m[id], rest);
      Insert(m[id], rest)
  }

  lemma ListingIs(ops: seq<Operation>, m: map<string, Operation>)
    requires Keyed(m) && Lists(ops, m)
    ensures ops == Listing(m)
  {
    ListsUnique(ops, Listing(m));
  }

  /** A listing has one element per key. */
  lemma {:induction false} ListingLength(m: map<string, Operation>)
    requires Keyed(m)
    ensures |Listing(m)| == |m|
  {
    var ops := Listing(m);
    var ids := IdsOf(ops);
    IdsOfSorted(ops);
    assert ids == m.Keys by {
      forall id
        ensures id in ids <==> id in m
      {
        if id in m {
          assert m[id] in ops;
        }
      }
    }
  }

  ghost function IdsOf(ops: seq<Operation>): set<string> { set op | op in ops :: op.id }

  lemma {:induction false} IdsOfSorted(ops: seq<Operation>)
    requires SortedById(ops)
    ensures |IdsOf(ops)| == |ops|
  {
    if ops == [] {
      assert IdsOf(ops) == {};
    } else {
      IdsOfSorted(ops[1..]);
      assert IdsOf(ops) == {ops[0].id} + IdsOf(ops[1..]) by {
        assert forall x :: x in ops <==> x == ops[0] || x in ops[1..];
      }
      if ops[0].id in IdsOf(ops[1..]) {
        var x :| x in ops[1..] && x.id == ops[0].id;
        LessTotal(x.id, x.id);
      }
    }
  }

  // ---- the file a map is written to -------------------------------------------------------------------

  /** The text of exactly the entries of the map, in ascending order of id. */
  ghost predicate AscendingText(codec: Codec, m: map<string, Operation>, data: Bytes) {
    exists entries: seq<Operation> ::
      && (forall op :: op in entries <==> op.id in m && m[op.id] == op)
      && (forall i, j :: 0 <= i < j < |entries| ==> Precedes(entries[i].id, entries[j].id))
      && data == Text(codec, entries)
  }

  /** The file a map is rewritten to. */
  lemma CompactedAscends(codec: Codec, m: map<string, Operation>)
    requires Keyed(m)
    ensures AscendingText(codec, m, Compacted(codec, m))
  {
    hide Text, Less, Precedes, Keyed;
    SortedPrecedes(Listing(m));
    hide Listing;
  }

  ghost function Compacted(codec: Codec, m: map<string, Operation>): Bytes
    requires Keyed(m)
  {
    Text(codec, Listing(m))
  }

  ghost predicate Fitting(codec: Codec, m: map<string, Operation>) {
    forall id :: id in m ==> FitsLine(codec, m[id])
  }

  lemma {:induction false} ApplyLists(ops: seq<Operation>, m: map<string, Operation>)
    requires Keyed(m) && Lists(ops, m)
    ensures Apply(map[], ops) == m
    decreases |ops|
  {
    hide Less;
    if ops == [] {
      ListingIs(ops, m);
      ListingLength(m);
    } else {
      var init, last := ops[..|ops| - 1], ops[|ops| - 1];
      assert last in ops;
      var m' := m - {last.id};
      forall op
        ensures op in init <==> op.id in m' && m'[op.id] == op
      {
        LessTotal(last.id, last.id);
        if op in init {
          assert op in ops;
        } else if op in ops {
          assert op == last;
        }
      }
      ApplyLists(init, m');
    }
  }

  /** Reopening a compacted file gives back the map it was written from, if every line fits the
      scanner, and otherwise cannot be done. So reopening and compacting again reproduces the file to
      the byte, whatever order the map was iterated in. */
  lemma CompactedReplays(codec: Codec, m: map<string, Operation>)
    requires Lawful(codec) && Keyed(m)
    ensures Terminated(Compacted(codec, m))
    ensures Replay(codec, Compacted(codec, m)) == if Fitting(codec, m) then Some(m) else None
  {
    var ops := Listing(m);
    TextRoundTrip(codec, ops);
    ApplyLists(ops, m);
    AllFitExact(codec, ops);
    hide FitsLine, Text, Parse, Listing;
    assert forall id :: id in m ==> m[id] in ops;
  }

  lemma NothingReplays(codec: Codec)
    ensures Replay(codec, []) == Some(map[])
  {
    assert Apply(map[], []) == map[];
  }

  /** Reading one more line of a file. */
  lemma ReadLine(codec: Codec, data: Bytes, read: seq<Operation>, rest: Bytes)
    requires rest != [] && Parse(codec, data) == Both(Some(read), Parse(codec, rest))
    ensures var one := ParseOne(codec, rest[..LineLength(rest)]);
            Parse(codec, data)
            == if one.None? then None else Both(Some(read + one.value), Parse(codec, AfterLine(rest)))
  {
    BothLaws(Some(read), ParseOne(codec, rest[..LineLength(rest)]), Parse(codec, AfterLine(rest)));
  }

  lemma EmptyRest(codec: Codec, read: seq<Operation>)
    ensures Both(Some(read), Parse(codec, [])) == Some(read)
  {
    BothLaws(Some(read), None, None);
  }

  /** Memory and file agree: reopening the file would give exactly this map. */
  ghost predicate Agree(codec: Codec, file: Bytes, m: map<string, Operation>) {
    && Lawful(codec)
    && Keyed(m) && Fitting(codec, m)
    && Terminated(file)
    && Replay(codec, file) == Some(m)
  }

  /** An appended line keeps file and map in agreement exactly when it fits the scanner. */
  lemma AppendAgrees(codec: Codec, file: Bytes, m: map<string, Operation>, op: Operation)
    requires Agree(codec, file, m)
    ensures Agree(codec, file + Line(codec, op), m[op.id := op]) <==> FitsLine(codec, op)
  {
    assert LawfulOn(codec, op);
    ReplayAppend(codec, file, op);
    hide LawfulOn, Line, Terminated, Replay, FitsLine;
    if Fitting(codec, m[op.id := op]) {
      assert FitsLine(codec, m[op.id := op][op.id]);
    }
  }

  /** A rewritten file agrees with its map whatever it held before, if the lines fit. */
  lemma CompactedAgrees(codec: Codec, m: map<string, Operation>)
    requires Lawful(codec) && Keyed(m)
    ensures Agree(codec, Compacted(codec, m), m) <==> Fitting(codec, m)
  {
    CompactedReplays(codec, m);
  }

  // ---- the store -----------------------------------------------------------------------------------------

  /** The file system as the store sees it: the queue file, absent before first use, and the temporary
      file of a compaction. */
  class Disk {
    var queue: Option<Bytes>
    var tmp: Option<Bytes>

    constructor ()
      ensures queue == None && tmp == None
    {
      queue, tmp := None, None;
    }
  }

  function Contents(file: Option<Bytes>): Bytes { if file.None? then [] else file.value }

  /** How far an operation gets with its file effects, in order: it completes, or it stops, by an
      error or a crash, before the effect with the given number. */
  datatype Io = Completes | StopsBefore(effect: nat)

  predicate Reaches(io: Io, effect: nat) { io.Completes? || effect < io.effect }

  /** The file, the map in memory, and whether the last operation on them completed. */
  datatype Queue = Queue(file: Bytes, ops: map<string, Operation>, running: bool)

  function AfterAppend(codec: Codec, q: Queue, op: Operation, io: Io): Queue {
    Queue(q.file + (if Reaches(io, 1) then Line(codec, op) else []), q.ops[op.id := op], Reaches(io, 3))
  }

  ghost function AfterAck(codec: Codec, q: Queue, id: string, io: Io): Queue
    requires Keyed(q.ops)
  {
    var ops := q.ops - {id};
    var renamed := Reaches(io, |ops| + 4);
    Queue(if renamed then Compacted(codec, ops) else q.file, ops, renamed)
  }

  /** A cold start: what is in memory afterwards is what the file replays to. */
  function Reopened(codec: Codec, q: Queue, opens: bool): Queue {
    var replayed := Replay(codec, q.file);
    if opens && replayed.Some? then Queue(q.file, replayed.value, true) else q.(running := false)
  }

  class Store {
    const disk: Disk
    const codec: Codec
    var ops: map<string, Operation>

    ghost predicate Valid()
      reads this, disk
    {
      Agree(codec, Contents(disk.queue), ops)
    }

    constructor (disk: Disk, codec: Codec)
      ensures this.disk == disk && this.codec == codec && ops == map[]
    {
      this.disk, this.codec, ops := disk, codec, map[];
    }

    /** Replays the file into the map, line by line; fails if the file cannot be opened or a line cannot be
        read. An absent file is an empty queue. */
    method Load(opens: bool) returns (ok: bool)
      requires ops == map[]
      modifies this`ops
      ensures ok <==> opens && Replay(codec, Contents(disk.queue)).Some?
      ensures ok ==> ops == Replay(codec, Contents(disk.queue)).value
      // one line that is too long, or is not blank and does not decode, is enough to fail
      ensures ok <==> opens && AllReadable(codec, Contents(disk.queue))
    {
      OpensExact(codec, Contents(disk.queue));
      hide AllReadable, Replay;
      if !opens {
        return false;
      }
      if disk.queue.None? {
        NothingReplays(codec);
        return true;
      }
      ok := ReadLines(disk.queue.value);
    }

    /** The scanner's loop over the lines of the file. */
    method ReadLines(data: Bytes) returns (ok: bool)
      requires ops == map[]
      modifies this`ops
      ensures ok <==> Replay(codec, data).Some?
      ensures ok ==> ops == Replay(codec, data).value
    {
      var rest := data;
      ghost var read: seq<Operation> := [];
      BothLaws(Parse(codec, data), None, None);
      hide Parse, LineLength, AfterLine;
      while rest != []
        invariant Parse(codec, data) == Both(Some(read), Parse(codec, rest))
        invariant ops == Apply(map[], read)
        decreases |rest|
      {
        var raw := rest[..LineLength(rest)];
        ReadLine(codec, data, read, rest);
        if |raw| >= LINE_LIMIT {
          return false;
        }
        if DropReturn(raw) != [] {
          var op := codec.unmarshal(DropReturn(raw));
          if op.None? {
            return false;
          }
          ops := ops[op.value.id := op.value];
          assert (read + [op.value])[..|read|] == read;
          read := read + [op.value];
        } else {
          assert read + [] == read;
        }
        rest := AfterLine(rest);
      }
      EmptyRest(codec, read);
      ok := true;
    }

    /** Updates the map, then creates the file if need be, writes the line, syncs and closes. */
    method Append(op: Operation, io: Io) returns (ok: bool)
      modifies this`ops, disk`queue
      ensures Queue(Contents(disk.queue), ops, ok)
              == AfterAppend(codec, Queue(old(Contents(disk.queue)), old(ops), true), op, io)
      // the map has the operation at once; the file has its line, and a newline, once the write is reached; and
      // the call succeeds only if the file is synced and closed after that
      ensures ops == old(ops)[op.id := op]
      ensures Contents(disk.queue)
              == old(Contents(disk.queue)) + if Reaches(io, 1) then codec.marshal(op) + [10] else []
      ensures ok <==> Reaches(io, 2) && Reaches(io, 3)
      ensures old(Valid()) ==>
                // wherever it stops, reopening gives the map before or the map after
                && (!Reaches(io, 1) ==> Replay(codec, Contents(disk.queue)) == Some(old(ops)))
                && (Reaches(io, 1) ==> (Valid() <==> FitsLine(codec, op)))
    {
      ghost var before := Contents(disk.queue);
      if Valid() {
        AppendAgrees(codec, before, ops, op);
      }
      assert Valid() ==> Replay(codec, before) == Some(ops);
      hide Agree, Line, Replay, FitsLine;
      ops := ops[op.id := op];
      if !Reaches(io, 0) {
        assert before + [] == before;
        return false;
      }
      if disk.queue.None? {
        disk.queue := Some([]);
      }
      if !Reaches(io, 1) {
        assert before + [] == before;
        return false;
      }
      disk.queue := Some(disk.queue.value + Line(codec, op));
      ok := Reaches(io, 2) && Reaches(io, 3);
    }

    /** The queued operations in id order. */
    method Pending() returns (out: seq<Operation>)
      requires Keyed(ops)
      ensures out == Listing(ops)
      // exactly the entries of the map, in ascending order of id
      ensures forall op :: op in out <==> op.id in ops && ops[op.id] == op
      ensures forall i, j :: 0 <= i < j < |out| ==> Precedes(out[i].id, out[j].id)
    {
      out := [];
      var ids := ops.Keys;
      while ids != {}
        invariant ids <= ops.Keys
        invariant DistinctIds(out)
        invariant forall op :: op in out <==> op.id in ops && op.id !in ids && ops[op.id] == op
        decreases |ids|
      {
        var id :| id in ids;
        assert forall i :: 0 <= i < |out| ==> out[i] in out;
        out := out + [ops[id]];
        ids := ids - {id};
      }
      SortSorts(out);
      out := Sort(out);
      ListingIs(out, ops);
      SortedPrecedes(out);
    }

    /** Removes the operation from the map and rewrites the file. */
    method Ack(id: string, io: Io) returns (ok: bool)
      requires Keyed(ops) && Lawful(codec)
      modifies this`ops, disk
      ensures Queue(Contents(disk.queue), ops, ok)
              == AfterAck(codec, Queue(old(Contents(disk.queue)), old(ops), true), id, io)
      ensures !ok ==> disk.queue == old(disk.queue)
      ensures ops == old(ops) - {id}
      ensures ok <==> Reaches(io, |ops| + 4)
      ensures ok ==> disk.queue.Some? && AscendingText(codec, ops, disk.queue.value)
      // a completed Ack restores the agreement of memory and file whatever the file held before
      ensures ok ==> (Valid() <==> Fitting(codec, ops))
    {
      ops := ops - {id};
      CompactedAgrees(codec, ops);
      hide Agree, Compacted, AscendingText;
      ok := Compact(io);
    }

    /** Writes the map in id order to the temporary file, flushes, syncs, closes, and renames it over
        the queue file. Until the rename the queue file is untouched. */
    method Compact(io: Io) returns (ok: bool)
      requires Keyed(ops)
      modifies disk
      ensures ok <==> Reaches(io, |ops| + 4)
      ensures ok ==> disk.queue == Some(Compacted(codec, ops)) && AscendingText(codec, ops, disk.queue.value)
      ensures !ok ==> disk.queue == old(disk.queue)
    {
      if !Reaches(io, 0) {
        return false;
      }
      disk.tmp := Some([]);
      var entries := Pending();
      ListingLength(ops);
      CompactedAscends(codec, ops);
      hide Text, Line, Lists, Keyed, Less, Listing, AscendingText;
      ok := WriteEntries(entries, io);
      var n := |entries|;
      if !ok || !Reaches(io, n + 1) || !Reaches(io, n + 2) || !Reaches(io, n + 3) || !Reaches(io, n + 4) {
        return false;
      }
      disk.queue, disk.tmp := disk.tmp, None;
    }

    /** Writes the lines of a compaction to the temporary file. */
    method WriteEntries(entries: seq<Operation>, io: Io) returns (ok: bool)
      requires disk.tmp == Some([])
      modifies disk`tmp
      ensures ok <==> Reaches(io, |entries|) || entries == []
      ensures ok ==> disk.tmp == Some(Text(codec, entries))
    {
      assert Text(codec, entries[..0]) == [];
      hide Text, Line;
      var i := 0;
      while i < |entries|
        invariant 0 <= i <= |entries|
        invariant disk.tmp == Some(Text(codec, entries[..i]))
        invariant i > 0 ==> Reaches(io, i)
      {
        if !Reaches(io, i + 1) {
          return false;
        }
        TextSnoc(codec, entries[..i], entries[i]);
        assert entries[..i + 1] == entries[..i] + [entries[i]];
        disk.tmp := Some(disk.tmp.value + Line(codec, entries[i]));
        i := i + 1;
      }
      assert entries[..i] == entries;
      ok := true;
    }
  }

  /** Opens the queue on a disk, whatever an earlier store on it had in memory; fails just when the file
      cannot be opened or replayed. */
  method Open(disk: Disk, codec: Codec, opens: bool) returns (s: Store, ok: bool)
    ensures fresh(s) && s.disk == disk && s.codec == codec
    ensures forall q: Queue :: q.file == Contents(disk.queue) ==>
              ok == Reopened(codec, q, opens).running
              && (ok ==> Queue(Contents(disk.queue), s.ops, ok) == Reopened(codec, q, opens))
    ensures ok <==> opens && AllReadable(codec, Contents(disk.queue))
  {
    hide AllReadable;
    s := new Store(disk, codec);
    ok := s.Load(opens);
  }
}
