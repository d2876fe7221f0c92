/** The polling loop that both consumers run: fetch a batch, handle its records one after the other, commit what
    succeeded. It is a loop over any state and any environment of a record. */
module Polling {
  datatype LoopStep<+F> =
    | FetchStep(n: nat)
    | HandleStep(fate: F)
    | CommitStep(stored: bool)
    | RestartStep

  /** One iteration: at most |fates| records are delivered, each handled in turn, and the successful ones are
      committed together. */
  datatype Poll<+F> = Poll(fates: seq<F>, stored: bool)

  function LoopRun<S, F>(next: (S, LoopStep<F>) -> S, v: S, steps: seq<LoopStep<F>>): S
    decreases |steps|
  {
    if steps == [] then v
    else next(LoopRun(next, v, steps[..|steps| - 1]), steps[|steps| - 1])
  }

  lemma LoopRunSnoc<S, F>(next: (S, LoopStep<F>) -> S, v: S, steps: seq<LoopStep<F>>, step: LoopStep<F>)
    ensures LoopRun(next, v, steps + [step]) == next(LoopRun(next, v, steps), step)
  {
    assert (steps + [step])[..|steps|] == steps;
  }

  function HandleTrace<F>(fates: seq<F>): seq<LoopStep<F>> {
    seq(|fates|, i requires 0 <= i < |fates| => HandleStep(fates[i]))
  }

  function PollTrace<F>(poll: Poll<F>): seq<LoopStep<F>> {
    [FetchStep(|poll.fates|)] + HandleTrace(poll.fates) + [CommitStep(poll.stored)]
  }

  function LoopTrace<F>(polls: seq<Poll<F>>): seq<LoopStep<F>>
    decreases |polls|
  {
    if polls == [] then [] else LoopTrace(polls[..|polls| - 1]) + PollTrace(polls[|polls| - 1])
  }

  /** The state after the fetch and the first `n` records of a poll. */
  function Batch<S, F>(next: (S, LoopStep<F>) -> S, v: S, fates: seq<F>, n: nat): S
    requires n <= |fates|
  {
    if n == 0 then next(v, FetchStep(|fates|))
    else next(Batch(next, v, fates, n - 1), HandleStep(fates[n - 1]))
  }

  function Polled<S, F>(next: (S, LoopStep<F>) -> S, v: S, poll: Poll<F>): S {
    next(Batch(next, v, poll.fates, |poll.fates|), CommitStep(poll.stored))
  }

  function Looped<S, F>(next: (S, LoopStep<F>) -> S, v: S, polls: seq<Poll<F>>): S
    decreases |polls|
  {
    if polls == [] then v else Polled(next, Looped(next, v, polls[..|polls| - 1]), polls[|polls| - 1])
  }

  /** Polls are taken one after the other. */
  lemma {:induction false} LoopedConcat<S, F>(next: (S, LoopStep<F>) -> S, v: S, a: seq<Poll<F>>, b: seq<Poll<F>>)
    ensures Looped(next, v, []) == v
    ensures forall poll :: Looped(next, v, [poll]) == Polled(next, v, poll)
    ensures Looped(next, v, a + b) == Looped(next, Looped(next, v, a), b)
    decreases |b|
  {
    assert forall poll: Poll<F> {:trigger [poll]} :: [poll][..0] == [];
    hide Polled;
    if b == [] {
      assert a + b == a;
    } else {
      LoopedConcat(next, v, a, b[..|b| - 1]);
      assert (a + b)[..|a + b| - 1] == a + b[..|b| - 1];
    }
  }

  lemma BatchStarts<S, F>(next: (S, LoopStep<F>) -> S, v: S, fates: seq<F>)
    ensures Batch(next, v, fates, 0) == next(v, FetchStep(|fates|))
  {}

  lemma BatchGrows<S, F>(next: (S, LoopStep<F>) -> S, v: S, fates: seq<F>, n: nat)
    requires n < |fates|
    ensures Batch(next, v, fates, n + 1) == next(Batch(next, v, fates, n), HandleStep(fates[n]))
  {}

  /** If handling does nothing once the batch is used up, the rest of the batch does nothing. */
  lemma {:induction false} BatchExhausted<S, F>(next: (S, LoopStep<F>) -> S, v: S, fates: seq<F>, n: nat, m: nat)
    requires n <= m <= |fates|
    requires forall fate :: next(Batch(next, v, fates, n), HandleStep(fate)) == Batch(next, v, fates, n)
    ensures Batch(next, v, fates, m) == Batch(next, v, fates, n)
  {
    if n < m {
      BatchExhausted(next, v, fates, n, m - 1);
    }
  }

  lemma {:induction false} BatchIsRun<S, F>(next: (S, LoopStep<F>) -> S, v: S, before: seq<LoopStep<F>>,
                                            fates: seq<F>, n: nat)
    requires n <= |fates|
    ensures LoopRun(next, v, before + [FetchStep(|fates|)] + HandleTrace(fates)[..n])
            == Batch(next, LoopRun(next, v, before), fates, n)
  {
    if n == 0 {
      assert before + [FetchStep(|fates|)] + HandleTrace(fates)[..0] == before + [FetchStep(|fates|)];
      LoopRunSnoc(next, v, before, FetchStep(|fates|));
    } else {
      BatchIsRun(next, v, before, fates, n - 1);
      var prefix := before + [FetchStep(|fates|)] + HandleTrace(fates)[..n - 1];
      assert before + [FetchStep(|fates|)] + HandleTrace(fates)[..n] == prefix + [HandleStep(fates[n - 1])];
      LoopRunSnoc(next, v, prefix, HandleStep(fates[n - 1]));
    }
  }

  lemma LoopTraceSplit<F>(polls: seq<Poll<F>>)
    requires polls != []
    ensures var init, poll := polls[..|polls| - 1], polls[|polls| - 1];
            LoopTrace(polls)
            == LoopTrace(init) + [FetchStep(|poll.fates|)] + HandleTrace(poll.fates)[..|poll.fates|]
               + [CommitStep(poll.stored)]
  {
    var fates := polls[|polls| - 1].fates;
    assert HandleTrace(fates)[..|fates|] == HandleTrace(fates);
  }

  /** The loop is a run of atomic steps. */
  lemma {:induction false} LoopIsRun<S, F>(next: (S, LoopStep<F>) -> S, v: S, polls: seq<Poll<F>>)
    ensures LoopRun(next, v, LoopTrace(polls)) == Looped(next, v, polls)
    decreases |polls|
  {
    if polls != [] {
      var init, poll := polls[..|polls| - 1], polls[|polls| - 1];
      LoopIsRun(next, v, init);
      BatchIsRun(next, v, LoopTrace(init), poll.fates, |poll.fates|);
      var handled := LoopTrace(init) + [FetchStep(|poll.fates|)] + HandleTrace(poll.fates)[..|poll.fates|];
      LoopTraceSplit(polls);
      LoopRunSnoc(next, v, handled, CommitStep(poll.stored));
    }
  }
}
