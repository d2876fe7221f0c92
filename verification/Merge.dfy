/** clients/onboard-sync/domain: operations and the version-counter merge, which the voyage service
    applies as well. */
module Merge {
  import opened Int64
  import opened Wrappers
  import opened Voyages
  import Storage

  const CREATE := "create"
  const UPDATE := "update"

  /** One voyage mutation; the transport treats every kind but "update" as a create. */
  datatype Operation = Operation(id: string, kind: string, content: Content, version: int64)

  function HigherVersionWins(current: Operation, incoming: Operation): Operation {
    if incoming.version > current.version then incoming else current
  }

  /** What the merge decides about: a content and the version it carries. */
  datatype Versioned = Versioned(content: Content, version: int64)

  function Effect(op: Operation): Versioned { Versioned(op.content, op.version) }

  /** The merge with an absent state as bottom. */
  function Join(a: Option<Versioned>, b: Option<Versioned>): Option<Versioned> {
    if a.None? then b
    else if b.Some? && b.value.version > a.value.version then b
    else a
  }

  /** The state left by a list of operations, merged one after the other into `start`. */
  function Fold(start: Option<Versioned>, ops: seq<Operation>): Option<Versioned>
    decreases |ops|
  {
    if ops == [] then start
    else Join(Fold(start, ops[..|ops| - 1]), Some(Effect(ops[|ops| - 1])))
  }

  /** The merge is a join that keeps the left argument on ties: associative, idempotent, with the
      absent state as identity, and never below either side. */
  lemma JoinLaws(a: Option<Versioned>, b: Option<Versioned>, c: Option<Versioned>)
    ensures Join(Join(a, b), c) == Join(a, Join(b, c))
    ensures Join(a, a) == a && Join(a, None) == a && Join(None, a) == a
    ensures Join(Join(a, b), b) == Join(a, b)
    ensures Join(a, b) == a || Join(a, b) == b
    ensures a.Some? ==> Join(a, b).Some? && Join(a, b).value.version >= a.value.version
    ensures b.Some? ==> Join(a, b).Some? && Join(a, b).value.version >= b.value.version
  {}

  /** The client's rule and the service's guarded UPDATE are the same merge. */
  lemma OneMergeRule(current: Operation, incoming: Operation, row: Storage.Row, v: Voyage)
    ensures Some(Effect(HigherVersionWins(current, incoming))) == Join(Some(Effect(current)), Some(Effect(incoming)))
    ensures var row' := Storage.HigherVersionRow(row, v);
            Some(Versioned(row'.content, row'.version))
            == Join(Some(Versioned(row.content, row.version)), Some(Versioned(v.content, v.version)))
  {}

  // ---- coalescing --------------------------------------------------------------------------------

  /** The single operation the queue holds after a list of operations for one id. */
  function Coalesce(ops: seq<Operation>): Operation
    requires ops != []
    decreases |ops|
  {
    if |ops| == 1 then ops[0]
    else HigherVersionWins(Coalesce(ops[..|ops| - 1]), ops[|ops| - 1])
  }

  /** It is the first of the operations at the highest version. */
  lemma {:induction false} CoalesceIsFirstHighest(ops: seq<Operation>) returns (k: nat)
    requires ops != []
    ensures k < |ops| && Coalesce(ops) == ops[k]
    ensures forall i :: 0 <= i < |ops| ==> ops[i].version <= ops[k].version
    ensures forall i :: 0 <= i < k ==> ops[i].version < ops[k].version
    decreases |ops|
  {
    var last := |ops| - 1;
    if last == 0 {
      k := 0;
    } else {
      var init := ops[..last];
      k := CoalesceIsFirstHighest(init);
      assert forall i :: 0 <= i < last ==> init[i] == ops[i];
      if ops[last].version > init[k].version {
        k := last;
      }
    }
  }
}
