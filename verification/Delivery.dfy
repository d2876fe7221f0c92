/** What sending a list of operations of one voyage does to the service's row, and when coalescing the
    list first, delivering it in another order, or repeating deliveries makes no difference. */
module Delivery {
  import opened Wrappers
  import opened Money
  import opened Voyages
  import opened Storage
  import opened Server
  import opened Merge
  import opened Syncing

  function RowState(db: Db, id: string): Option<Versioned> {
    if id in db.voyages then Some(Versioned(db.voyages[id].content, db.voyages[id].version)) else None
  }

  /** A stored voyage is at version 1 or above, as every insert leaves it and no update undoes. */
  predicate FromOne(row: Option<Versioned>) { row.Some? ==> row.value.version >= 1 }

  // ---- one send ----------------------------------------------------------------------------------------

  /** The two tables agree on every other key. */
  ghost predicate SameElsewhere(db: Db, db': Db, key: string) {
    forall id :: id != key ==>
      && (id in db'.voyages <==> id in db.voyages) && (id in db.voyages ==> db'.voyages[id] == db.voyages[id])
      && (id in db'.inflight <==> id in db.inflight) && (id in db.inflight ==> db'.inflight[id] == db.inflight[id])
  }

  lemma WaitedFrame(db: Db, v: Voyage, rival: Rival)
    ensures SameElsewhere(db, Awaited(db, v, rival), v.id)
  {}

  /** A send touches no other key and leaves no transaction of its own open. */
  lemma SendFrame(rate: Money, db: Db, op: Operation, a: Attempt)
    ensures var db' := Sent(rate, db, op, a).0;
            SameElsewhere(db, db', op.id) && (op.id !in db.inflight ==> op.id !in db'.inflight)
  {
    hide CreateReply, UpdateReply;
    if a.net.RequestLost? {
    } else if op.kind == UPDATE {
      assert DbRun(DbNext(db, UpdateVoyage(Request(op))), []) == DbNext(db, UpdateVoyage(Request(op)));
      hide DbRun;
    } else {
      CreateFrame(db, Request(op), a);
      hide AfterCreate, Awaited, SameElsewhere;
    }
  }

  lemma CreateFrame(db: Db, v: Voyage, a: Attempt)
    ensures var found := Awaited(db, v, a.rival);
            var db' := AfterCreate(found, v, a.create);
            SameElsewhere(db, db', v.id) && (v.id !in db.inflight ==> v.id !in db'.inflight)
  {
    var found := Awaited(db, v, a.rival);
    WaitedFrame(db, v, a.rival);
    if Validate(v).None? {
      assert v.id !in found.inflight;
      CreateIsAtomic(found, v, a.create);
    }
    hide DbRun, CreateTrace, Waited;
  }

  /** The service carries out the request, whether or not the client hears of it. */
  predicate CarriedOut(a: Attempt) {
    && !a.net.RequestLost?
    && (a.create.NoFault? || a.create.CommitUnknown? || a.create.GetFails?)
    && !a.update.CallLost?
  }

  predicate Acceptable(op: Operation) { Validate(Request(op)).None? }

  predicate Updates(op: Operation) { op.kind == UPDATE && Acceptable(op) }

  predicate Creates(op: Operation) { op.kind != UPDATE && Acceptable(op) }

  /** What carrying out an operation makes of the row: an update of a stored voyage merges, a create of an
      unknown one stores it at version 1, and everything else is refused or has no effect. */
  function Served(row: Option<Versioned>, op: Operation): Option<Versioned> {
    if row.Some? && Updates(op) then Join(row, Some(Effect(op)))
    else if row.None? && Creates(op) then Some(Versioned(op.content, 1))
    else row
  }

  lemma SentIsServed(rate: Money, db: Db, op: Operation, a: Attempt)
    requires op.id !in db.inflight && CarriedOut(a)
    ensures RowState(Sent(rate, db, op, a).0, op.id) == Served(RowState(db, op.id), op)
  {
    if op.kind == UPDATE {
      hide CreateReply;
      if op.id in db.voyages {
        OneMergeRule(op, op, db.voyages[op.id], Request(op));
      }
    } else {
      CreateIsAtomic(db, Request(op), a.create);
      hide DbRun, CreateTrace, QuotedReply, UpdateReply, AfterUpdate;
    }
  }

  // ---- lists of sends ------------------------------------------------------------------------------------

  /** The service's tables after sending the operations in order. */
  function Delivered(rate: Money, db: Db, ops: seq<Operation>, attempts: nat -> Attempt): Db
    decreases |ops|
  {
    if ops == [] then db
    else
      var n := |ops| - 1;
      Sent(rate, Delivered(rate, db, ops[..n], attempts), ops[n], attempts(n)).0
  }

  function ServedAll(row: Option<Versioned>, ops: seq<Operation>): Option<Versioned>
    decreases |ops|
  {
    if ops == [] then row else Served(ServedAll(row, ops[..|ops| - 1]), ops[|ops| - 1])
  }

  /** The operations all concern one voyage, whose key no open transaction holds. */
  ghost predicate About(id: string, db: Db, ops: seq<Operation>) {
    id !in db.inflight && forall k :: 0 <= k < |ops| ==> ops[k].id == id
  }

  ghost predicate AllCarriedOut(attempts: nat -> Attempt) { forall k: nat :: CarriedOut(attempts(k)) }

  lemma {:induction false} DeliveredIsServed(rate: Money, db: Db, ops: seq<Operation>, attempts: nat -> Attempt,
                                             id: string)
    requires About(id, db, ops) && AllCarriedOut(attempts)
    ensures id !in Delivered(rate, db, ops, attempts).inflight
    ensures RowState(Delivered(rate, db, ops, attempts), id) == ServedAll(RowState(db, id), ops)
    decreases |ops|
  {
    hide Sent, Served, CarriedOut, RowState, SameElsewhere;
    if ops != [] {
      var n := |ops| - 1;
      DeliveredIsServed(rate, db, ops[..n], attempts, id);
      var db' := Delivered(rate, db, ops[..n], attempts);
      SendFrame(rate, db', ops[n], attempts(n));
      SentIsServed(rate, db', ops[n], attempts(n));
    }
  }

  /** The operation would change the row. */
  predicate Applicable(row: Option<Versioned>, op: Operation) {
    if row.Some? then Updates(op) && op.version > row.value.version else Creates(op)
  }

  ghost predicate NoneApplicable(row: Option<Versioned>, ops: seq<Operation>) {
    forall k :: 0 <= k < |ops| ==> !Applicable(row, ops[k])
  }

  /** What a list makes of a stored row: nothing if no operation is applicable, otherwise the first of the
      valid updates at the highest version. */
  ghost predicate Settles(row: Versioned, ops: seq<Operation>, end: Option<Versioned>) {
    && end.Some? && end.value.version >= row.version
    && (forall k :: 0 <= k < |ops| && Updates(ops[k]) ==> ops[k].version <= end.value.version)
    && (end.value != row ==> exists k :: FirstWinner(row, ops, end.value, k))
  }

  ghost predicate FirstWinner(row: Versioned, ops: seq<Operation>, end: Versioned, k: nat) {
    && k < |ops| && Updates(ops[k]) && end == Effect(ops[k]) && end.version > row.version
    && forall i :: 0 <= i < k && Updates(ops[i]) ==> ops[i].version < end.version
  }

  lemma {:induction false} ServedSettles(row: Versioned, ops: seq<Operation>)
    ensures Settles(row, ops, ServedAll(Some(row), ops))
    decreases |ops|
  {
    hide Acceptable;
    if ops != [] {
      var n := |ops| - 1;
      var init := ops[..n];
      ServedSettles(row, init);
      var mid, end := ServedAll(Some(row), init), ServedAll(Some(row), ops);
      assert forall k :: 0 <= k < n ==> init[k] == ops[k];
      if end.value != row {
        if end == mid {
          var k :| FirstWinner(row, init, mid.value, k);
          assert FirstWinner(row, ops, end.value, k);
        } else {
          assert FirstWinner(row, ops, end.value, n);
        }
      }
    }
  }

  /** A list leaves a row alone exactly when none of its operations is applicable to it. */
  lemma {:induction false} UnchangedExact(row: Option<Versioned>, ops: seq<Operation>)
    ensures ServedAll(row, ops) == row <==> NoneApplicable(row, ops)
    decreases |ops|
  {
    hide Acceptable;
    if row.Some? {
      ServedSettles(row.value, ops);
      var end := ServedAll(row, ops);
      if end != row {
        var k: nat :| FirstWinner(row.value, ops, end.value, k);
        assert Applicable(row, ops[k]);
      }
    } else if ops != [] {
      var n := |ops| - 1;
      UnchangedExact(row, ops[..n]);
      assert forall k :: 0 <= k < n ==> ops[..n][k] == ops[k];
    }
  }

  lemma {:induction false} ServedConcat(row: Option<Versioned>, a: seq<Operation>, b: seq<Operation>)
    ensures ServedAll(row, a + b) == ServedAll(ServedAll(row, a), b)
    decreases |b|
  {
    hide Served;
    if b == [] {
      assert a + b == a;
    } else {
      ServedConcat(row, a, b[..|b| - 1]);
      assert (a + b)[..|a + b| - 1] == a + b[..|b| - 1];
    }
  }

  // ---- coalescing ----------------------------------------------------------------------------------------

  /** A create carries version 1, since its version is not sent and the service stores 1. */
  predicate CreateAtOne(op: Operation) { op.kind != UPDATE ==> op.version == 1 }

  ghost predicate AllCreatesAtOne(ops: seq<Operation>) { forall k :: 0 <= k < |ops| ==> CreateAtOne(ops[k]) }

  lemma ServedAround(row: Option<Versioned>, ops: seq<Operation>, k: nat)
    requires k < |ops|
    ensures ServedAll(row, ops) == ServedAll(Served(ServedAll(row, ops[..k]), ops[k]), ops[k + 1..])
  {
    hide Served;
    assert ops == ops[..k + 1] + ops[k + 1..];
    assert ops[..k + 1][..k] == ops[..k];
    ServedConcat(row, ops[..k + 1], ops[k + 1..]);
  }

  /** An unknown voyage is stored by the first valid create, and stays so if no valid update after it has a
      version above 1. */
  lemma CreatedAt(ops: seq<Operation>, k: nat)
    requires k < |ops| && Creates(ops[k])
    requires forall i :: 0 <= i < k ==> !Creates(ops[i])
    requires forall i :: k < i < |ops| && Updates(ops[i]) ==> ops[i].version <= 1
    ensures ServedAll(None, ops) == Some(Versioned(ops[k].content, 1))
  {
    ServedAround(None, ops, k);
    UnchangedExact(None, ops[..k]);
    UnchangedExact(Some(Versioned(ops[k].content, 1)), ops[k + 1..]);
    hide ServedAll, Acceptable;
  }

  /** If the coalesced operation is a valid create, nothing before it takes effect on an unknown voyage, and
      nothing after it is newer. */
  lemma CoalescedCreate(ops: seq<Operation>)
    requires ops != [] && AllCreatesAtOne(ops) && Creates(Coalesce(ops))
    ensures ServedAll(None, ops) == Some(Versioned(Coalesce(ops).content, 1))
  {
    var k := CoalesceIsFirstHighest(ops);
    hide ServedAll, Acceptable;
    assert forall i :: 0 <= i <= k ==> CreateAtOne(ops[i]);
    CreatedAt(ops, k);
  }

  lemma CoalescedUpdate(row: Versioned, ops: seq<Operation>)
    requires ops != [] && Applicable(Some(row), Coalesce(ops))
    ensures ServedAll(Some(row), ops) == Some(Effect(Coalesce(ops)))
  {
    hide Acceptable;
    var k := CoalesceIsFirstHighest(ops);
    ServedSettles(row, ops);
    var end := ServedAll(Some(row), ops);
    var w: nat :| FirstWinner(row, ops, end.value, w);
    assert Updates(ops[k]) && k >= w && w >= k;
  }

  lemma CoalescedServed(row: Option<Versioned>, ops: seq<Operation>)
    requires ops != [] && AllCreatesAtOne(ops)
    ensures Served(row, Coalesce(ops)) == ServedAll(row, ops)
            <==> Applicable(row, Coalesce(ops)) || NoneApplicable(row, ops)
  {
    var k := CoalesceIsFirstHighest(ops);
    UnchangedExact(row, ops);
    if Applicable(row, Coalesce(ops)) {
      if row.None? {
        CoalescedCreate(ops);
      } else {
        CoalescedUpdate(row.value, ops);
      }
    }
    hide Acceptable;
  }

  /** When coalescing preserves meaning: sending only the operation left in the queue leaves the service's
      row as sending every operation in order would, ties included, exactly when the service can apply the
      operation left or could apply none of them. */
  lemma CoalescingExact(rate: Money, db: Db, ops: seq<Operation>, attempts: nat -> Attempt, a: Attempt, id: string)
    requires About(id, db, ops) && AllCarriedOut(attempts) && CarriedOut(a)
    requires ops != [] && AllCreatesAtOne(ops)
    ensures RowState(Sent(rate, db, Coalesce(ops), a).0, id) == RowState(Delivered(rate, db, ops, attempts), id)
            <==> Applicable(RowState(db, id), Coalesce(ops)) || NoneApplicable(RowState(db, id), ops)
  {
    var k := CoalesceIsFirstHighest(ops);
    hide *;
    CoalesceId(ops, id, db);
    SentIsServed(rate, db, Coalesce(ops), a);
    DeliveredIsServed(rate, db, ops, attempts, id);
    CoalescedServed(RowState(db, id), ops);
  }

  lemma CoalesceId(ops: seq<Operation>, id: string, db: Db)
    requires ops != [] && About(id, db, ops)
    ensures Coalesce(ops).id == id && id !in db.inflight
  {
    var k := CoalesceIsFirstHighest(ops);
  }

  /** In particular it always does for valid updates of a stored voyage. */
  lemma CoalescingPreservesMeaning(rate: Money, db: Db, ops: seq<Operation>, attempts: nat -> Attempt, a: Attempt,
                                   id: string)
    requires About(id, db, ops) && AllCarriedOut(attempts) && CarriedOut(a)
    requires ops != [] && id in db.voyages && forall k :: 0 <= k < |ops| ==> Updates(ops[k])
    ensures RowState(Sent(rate, db, Coalesce(ops), a).0, id) == RowState(Delivered(rate, db, ops, attempts), id)
  {
    var k := CoalesceIsFirstHighest(ops);
    hide Sent, Delivered, CarriedOut, Acceptable;
    assert forall i :: 0 <= i < |ops| ==> Updates(ops[i]);
    CoalescingExact(rate, db, ops, attempts, a, id);
  }

  // ---- order and repetition ------------------------------------------------------------------------------

  ghost predicate SameOperations(a: seq<Operation>, b: seq<Operation>) {
    forall op :: op in a <==> op in b
  }

  /** An operation that could be the last word on a stored row. */
  ghost predicate Wins(row: Versioned, ops: seq<Operation>, op: Operation) {
    op in ops && Applicable(Some(row), op) && forall x :: x in ops && Updates(x) ==> x.version <= op.version
  }

  /** Nothing depends on the order: on a stored row the possible winners agree; on an unknown voyage the
      valid creates agree, and if there is one, no valid update would replace it. */
  ghost predicate Agreeing(row: Option<Versioned>, ops: seq<Operation>) {
    if row.Some? then
      forall x, y :: Wins(row.value, ops, x) && Wins(row.value, ops, y) ==> x.content == y.content
    else
      && (forall x, y :: x in ops && y in ops && Creates(x) && Creates(y) ==> x.content == y.content)
      && (forall x, y :: x in ops && y in ops && Creates(x) && Updates(y) ==> y.version <= 1)
  }

  lemma WinnerOf(row: Versioned, ops: seq<Operation>) returns (op: Operation)
    requires !NoneApplicable(Some(row), ops)
    ensures ServedAll(Some(row), ops) == Some(Effect(op)) && Wins(row, ops, op)
  {
    hide Acceptable;
    ServedSettles(row, ops);
    UnchangedExact(Some(row), ops);
    var end := ServedAll(Some(row), ops).value;
    var k: nat :| FirstWinner(row, ops, end, k);
    op := ops[k];
  }

  /** Delivering the same operations in any order and with any repetition to a stored voyage leaves the same
      version. */
  lemma SameVersion(row: Versioned, a: seq<Operation>, b: seq<Operation>)
    requires SameOperations(a, b)
    ensures NoneApplicable(Some(row), a) == NoneApplicable(Some(row), b)
    ensures ServedAll(Some(row), a).Some? && ServedAll(Some(row), b).Some?
    ensures ServedAll(Some(row), a).value.version == ServedAll(Some(row), b).value.version
  {
    hide Acceptable, ServedAll;
    UnchangedExact(Some(row), a);
    UnchangedExact(Some(row), b);
    assert forall k :: 0 <= k < |a| ==> a[k] in b;
    assert forall k :: 0 <= k < |b| ==> b[k] in a;
    if !NoneApplicable(Some(row), a) {
      var x := WinnerOf(row, a);
      var y := WinnerOf(row, b);
    }
  }

  lemma FirstCreate(ops: seq<Operation>, c: Operation) returns (k: nat)
    requires c in ops && Creates(c)
    ensures k < |ops| && Creates(ops[k]) && forall i :: 0 <= i < k ==> !Creates(ops[i])
  {
    k := 0;
    hide Acceptable;
    while !Creates(ops[k])
      invariant k < |ops| && c in ops[k..]
      invariant forall i :: 0 <= i < k ==> !Creates(ops[i])
      decreases |ops| - k
    {
      k := k + 1;
    }
  }

  lemma AgreeingSuffices(row: Option<Versioned>, a: seq<Operation>, b: seq<Operation>)
    requires Agreeing(row, a) && SameOperations(a, b)
    ensures ServedAll(row, a) == ServedAll(row, b)
  {
    hide Acceptable, ServedAll;
    UnchangedExact(row, a);
    UnchangedExact(row, b);
    assert forall k :: 0 <= k < |a| ==> a[k] in b;
    assert forall k :: 0 <= k < |b| ==> b[k] in a;
    if !NoneApplicable(row, a) {
      if row.Some? {
        SameVersion(row.value, a, b);
        var x := WinnerOf(row.value, a);
        var y := WinnerOf(row.value, b);
        assert Wins(row.value, a, y);
      } else {
        var c :| c in a && Creates(c);
        var j := FirstCreate(a, c);
        var k := FirstCreate(b, c);
        CreatedAt(a, j);
        CreatedAt(b, k);
      }
    }
  }

  /** The valid creates of a list, or the rest of it. */
  function Part(ops: seq<Operation>, creates: bool): seq<Operation> {
    if ops == [] then []
    else (if Creates(ops[0]) == creates then [ops[0]] else []) + Part(ops[1..], creates)
  }

  lemma {:induction false} PartIs(ops: seq<Operation>, creates: bool)
    ensures forall op :: op in Part(ops, creates) <==> op in ops && Creates(op) == creates
  {
    hide Acceptable;
    if ops != [] {
      PartIs(ops[1..], creates);
      assert forall op :: op in ops <==> op == ops[0] || op in ops[1..];
    }
  }

  /** Delivered after everything that is not a create, a create stores its content for good. */
  lemma CreateLate(ops: seq<Operation>, x: Operation)
    requires x in ops && Creates(x)
    ensures var late := Part(ops, false) + [x] + Part(ops, true);
            SameOperations(ops, late) && ServedAll(None, late) == Some(Versioned(x.content, 1))
  {
    hide Acceptable;
    PartIs(ops, false);
    PartIs(ops, true);
    var before, after := Part(ops, false), Part(ops, true);
    var late, k := before + [x] + after, |before|;
    assert forall i :: 0 <= i < k ==> late[i] in before;
    forall i | k < i < |late|
      ensures late[i] in after
    {
      assert late[i] == after[i - k - 1];
    }
    hide Part;
    CreatedAt(late, k);
  }

  /** Delivered first, a create or a winning update has settled what the rest can no longer change, or is
      overtaken by a newer update. */
  lemma DeliveredFirst(row: Option<Versioned>, x: Operation, ops: seq<Operation>)
    requires x in ops
    ensures SameOperations(ops, [x] + ops)
    ensures ServedAll(row, [x] + ops) == ServedAll(Served(row, x), ops)
  {
    ServedAround(row, [x] + ops, 0);
    assert ([x] + ops)[..0] == [] && ([x] + ops)[1..] == ops;
    hide Served;
  }

  lemma AgreeingNecessary(row: Option<Versioned>, ops: seq<Operation>) returns (a: seq<Operation>, b: seq<Operation>)
    requires !Agreeing(row, ops)
    ensures SameOperations(ops, a) && SameOperations(ops, b) && ServedAll(row, a) != ServedAll(row, b)
  {
    hide Acceptable, ServedAll, Part;
    if row.Some? {
      var x, y :| Wins(row.value, ops, x) && Wins(row.value, ops, y) && x.content != y.content;
      a, b := [x] + ops, [y] + ops;
      DeliveredFirst(row, x, ops);
      DeliveredFirst(row, y, ops);
      assert forall k :: 0 <= k < |ops| ==> ops[k] in ops;
      UnchangedExact(Some(Effect(x)), ops);
      UnchangedExact(Some(Effect(y)), ops);
    } else if x, y :| x in ops && y in ops && Creates(x) && Creates(y) && x.content != y.content {
      a, b := Part(ops, false) + [x] + Part(ops, true), Part(ops, false) + [y] + Part(ops, true);
      CreateLate(ops, x);
      CreateLate(ops, y);
    } else {
      var x, y :| x in ops && y in ops && Creates(x) && Updates(y) && y.version > 1;
      a, b := [x] + ops, Part(ops, false) + [x] + Part(ops, true);
      DeliveredFirst(row, x, ops);
      CreateLate(ops, x);
      var k :| 0 <= k < |ops| && ops[k] == y;
      assert Applicable(Some(Versioned(x.content, 1)), ops[k]);
      UnchangedExact(Some(Versioned(x.content, 1)), ops);
    }
  }

  /** Every delivery of the same operations, in whatever order and however often each, ends alike. */
  ghost predicate OrderFree(rate: Money, db: Db, ops: seq<Operation>, id: string) {
    forall other, x, y :: SameOperations(ops, other) && AllCarriedOut(x) && AllCarriedOut(y) ==>
      RowState(Delivered(rate, db, other, x), id) == RowState(Delivered(rate, db, ops, y), id)
  }

  lemma SameAbout(id: string, db: Db, ops: seq<Operation>, other: seq<Operation>)
    requires About(id, db, ops) && SameOperations(ops, other)
    ensures About(id, db, other)
  {
    assert forall k :: 0 <= k < |other| ==> other[k] in ops;
  }

  /** When order and repetition of deliveries do not matter, for creates and updates alike. */
  lemma OrderIndependenceExact(rate: Money, db: Db, ops: seq<Operation>, id: string)
    requires About(id, db, ops)
    ensures OrderFree(rate, db, ops, id) <==> Agreeing(RowState(db, id), ops)
  {
    hide Agreeing, Delivered, ServedAll, RowState, About;
    if Agreeing(RowState(db, id), ops) {
      forall other, x, y | SameOperations(ops, other) && AllCarriedOut(x) && AllCarriedOut(y)
        ensures RowState(Delivered(rate, db, other, x), id) == RowState(Delivered(rate, db, ops, y), id)
      {
        SameAbout(id, db, ops, other);
        DeliveredIsServed(rate, db, other, x, id);
        DeliveredIsServed(rate, db, ops, y, id);
        AgreeingSuffices(RowState(db, id), ops, other);
      }
    } else {
      var a, b := AgreeingNecessary(RowState(db, id), ops);
      var x := Smooth();
      SameAbout(id, db, ops, a);
      SameAbout(id, db, ops, b);
      DeliveredIsServed(rate, db, a, x, id);
      DeliveredIsServed(rate, db, b, x, id);
    }
  }

  /** Attempts on which nothing fails. */
  function Smooth(): (x: nat -> Attempt)
    ensures AllCarriedOut(x)
  {
    n => Attempt(Arrives, RivalRollsBack, NoFault, Reachable, CallOk, false, QueueStore.Completes, 0)
  }

  /** Without any agreement a stored voyage still always ends at the same version, the highest of its own and
      those of the valid updates. */
  lemma MaxVersionAlwaysWins(rate: Money, db: Db, a: seq<Operation>, b: seq<Operation>, x: nat -> Attempt,
                             y: nat -> Attempt, id: string)
    requires About(id, db, a) && SameOperations(a, b) && id in db.voyages && AllCarriedOut(x) && AllCarriedOut(y)
    ensures var end, end' := RowState(Delivered(rate, db, a, x), id), RowState(Delivered(rate, db, b, y), id);
            && end.Some? && end'.Some? && end.value.version == end'.value.version
            && end.value.version >= db.voyages[id].version
            && (forall k :: 0 <= k < |a| && Updates(a[k]) ==> a[k].version <= end.value.version)
  {
    hide Delivered, ServedAll, Acceptable;
    SameAbout(id, db, a, b);
    DeliveredIsServed(rate, db, a, x, id);
    DeliveredIsServed(rate, db, b, y, id);
    var row := RowState(db, id).value;
    SameVersion(row, a, b);
    ServedSettles(row, a);
  }
}
