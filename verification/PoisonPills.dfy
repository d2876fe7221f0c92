/** When an undecodable record gets its dead letter. Handling one counts as a success even if the dead letter
    was not written, so its offset is committed all the same; the guard below is exact. Two records with the
    same bytes are two poison pills: what is tracked is the offset of each and the place of its own letter. */
module PoisonPills {
  import opened Voyages
  import opened Money
  import opened Storage
  import opened Broker
  import opened OutboxRelay
  import opened EstimatorConsumer
  import opened EstimateConsumer
  import opened Pipeline
  import opened Invariants

  /** For each offset whose dead letter was written, the place of the latest in the dead-letter topic. */
  type Letters = map<nat, nat>

  /** Every undecodable record handled so far has had a dead letter written. */
  ghost predicate Lettered<T>(log: seq<Record<T>>, letters: Letters, done: set<nat>) {
    forall o :: o in done && o < |log| && log[o].Garbage? ==> o in letters
  }

  /** Each letter carries the bytes of its record, and no two records share one. */
  ghost predicate OwnLetters<T>(log: seq<Record<T>>, dlq: seq<Record<T>>, letters: Letters) {
    && (forall o :: o in letters ==> o < |log| && letters[o] < |dlq| && dlq[letters[o]] == log[o])
    && (forall o, p :: o in letters && p in letters && o != p ==> letters[o] != letters[p])
  }

  predicate EstHandles(s: State, step: Step) {
    step.Estimating? && step.e.HandleStep? && s.est.next < s.est.position && s.est.next < |s.logs.created|
  }

  predicate VoyHandles(s: State, step: Step) {
    step.Applying? && step.y.HandleStep? && s.voy.next < s.voy.position && s.voy.next < |s.logs.ready|
  }

  /** The letters after a step. */
  function EstNoted(s: State, letters: Letters, step: Step): Letters {
    if EstHandles(s, step) && s.logs.created[s.est.next].Garbage? && !step.e.fate.produce.Lost?
    then letters[s.est.next := |s.logs.createdDlq|]
    else letters
  }

  function VoyNoted(s: State, letters: Letters, step: Step): Letters {
    if VoyHandles(s, step) && s.logs.ready[s.voy.next].Garbage? && !step.y.fate.deadLetter.Lost?
    then letters[s.voy.next := |s.logs.readyDlq|]
    else letters
  }

  /** If the step handles an undecodable record that has no dead letter yet, one gets written. */
  predicate EstLetterGuard(s: State, letters: Letters, step: Step) {
    EstHandles(s, step) && s.logs.created[s.est.next].Garbage? && s.est.next !in letters ==>
      !step.e.fate.produce.Lost?
  }

  predicate VoyLetterGuard(s: State, letters: Letters, step: Step) {
    VoyHandles(s, step) && s.logs.ready[s.voy.next].Garbage? && s.voy.next !in letters ==>
      !step.y.fate.deadLetter.Lost?
  }

  ghost predicate EstLettered(w: World, letters: Letters) { Lettered(w.s.logs.created, letters, w.h.est.done) }

  ghost predicate VoyLettered(w: World, letters: Letters) { Lettered(w.s.logs.ready, letters, w.h.voy.done) }

  lemma EstStepLettered(w: World, letters: Letters, step: Step)
    requires Inv(w) && EstLettered(w, letters)
    ensures EstLettered(WNext(w, step), EstNoted(w.s, letters, step)) <==> EstLetterGuard(w.s, letters, step)
  {
    hide Inv, WNext;
    DoneBelow(w);
    Positions(w);
    if step.Estimating? {
      EstimatorDoes(w, step.e);
    } else {
      OthersKeepEst(w, step);
    }
  }

  lemma VoyStepLettered(w: World, letters: Letters, step: Step)
    requires Inv(w) && VoyLettered(w, letters)
    ensures VoyLettered(WNext(w, step), VoyNoted(w.s, letters, step)) <==> VoyLetterGuard(w.s, letters, step)
  {
    hide Inv, WNext;
    DoneBelow(w);
    Positions(w);
    if step.Applying? {
      VoyageConsumerDoes(w, step.y);
    } else {
      OthersKeepVoy(w, step);
    }
  }

  lemma EstStepOwn(w: World, letters: Letters, step: Step)
    requires Inv(w) && OwnLetters(w.s.logs.created, w.s.logs.createdDlq, letters)
    ensures var w' := WNext(w, step);
            OwnLetters(w'.s.logs.created, w'.s.logs.createdDlq, EstNoted(w.s, letters, step))
  {
    hide Inv, WNext;
    Positions(w);
    if step.Estimating? {
      EstimatorDoes(w, step.e);
    } else {
      OthersKeepEst(w, step);
    }
  }

  lemma VoyStepOwn(w: World, letters: Letters, step: Step)
    requires Inv(w) && OwnLetters(w.s.logs.ready, w.s.logs.readyDlq, letters)
    ensures var w' := WNext(w, step);
            OwnLetters(w'.s.logs.ready, w'.s.logs.readyDlq, VoyNoted(w.s, letters, step))
  {
    hide Inv, WNext;
    Positions(w);
    if step.Applying? {
      VoyageConsumerDoes(w, step.y);
    } else {
      OthersKeepVoy(w, step);
    }
  }

  lemma DoneBelow(w: World)
    requires Inv(w)
    ensures forall o :: o in w.h.est.done ==> o < |w.s.logs.created|
    ensures forall o :: o in w.h.voy.done ==> o < |w.s.logs.ready|
  {}

  /** What the other processes leave of the estimator's business. */
  lemma OthersKeepEst(w: World, step: Step)
    requires !step.Estimating?
    ensures var w' := WNext(w, step);
            && w.s.logs.created <= w'.s.logs.created && w'.s.logs.createdDlq == w.s.logs.createdDlq
            && w'.s.logs.estimatorCommitted == w.s.logs.estimatorCommitted
            && w'.s.est == w.s.est && w'.h.est == w.h.est
  {
    hide DbNext, Upsert, ObserveVoy, ObserveBirth, AppliedTo;
    match step
    case Relaying(r) =>
    case Applying(y) =>
    case _ =>
  }

  /** What the estimator does itself: an undecodable record is always handled with success. */
  lemma EstimatorDoes(w: World, e: EstStep)
    requires w.s.logs.estimatorCommitted <= w.s.est.next
    ensures var s, w' := w.s, WNext(w, Estimating(e));
            && w'.s.logs.created == s.logs.created
            && if e.HandleStep? && s.est.next < s.est.position && s.est.next < |s.logs.created| then
                 && w'.s.est.next == s.est.next + 1
                 && (w'.h.est.done == w.h.est.done || w'.h.est.done == w.h.est.done + {s.est.next})
                 && (s.logs.created[s.est.next].Garbage? ==>
                       && w'.h.est.done == w.h.est.done + {s.est.next}
                       && w'.s.logs.createdDlq
                          == Appended(s.logs.createdDlq, s.logs.created[s.est.next], e.fate.produce))
                 && (s.logs.created[s.est.next].Event? ==> w'.s.logs.createdDlq == s.logs.createdDlq)
               else
                 w'.s.est.next <= s.est.next && w'.h.est.done == w.h.est.done
                 && w'.s.logs.createdDlq == s.logs.createdDlq
  {
    hide PriceOf;
    match e
    case HandleStep(fate) =>
    case _ =>
  }

  /** And of the voyage consumer's, which loses its memory in a crash. */
  lemma OthersKeepVoy(w: World, step: Step)
    requires !step.Applying?
    ensures var w' := WNext(w, step);
            && w.s.logs.ready <= w'.s.logs.ready && w'.s.logs.readyDlq == w.s.logs.readyDlq
            && w'.s.logs.voyageCommitted == w.s.logs.voyageCommitted
            && w'.s.voy == (if step.VoyageServiceCrash? then Resume(w.s.logs.voyageCommitted) else w.s.voy)
            && w'.h.voy.done == w.h.voy.done
  {
    hide DbNext, PriceOf, ObserveEst, ObserveBirth, Pending, First;
    match step
    case Relaying(r) =>
    case Estimating(e) =>
    case _ =>
  }

  /** What the voyage consumer does itself. */
  lemma VoyageConsumerDoes(w: World, y: VoyStep)
    requires w.s.logs.voyageCommitted <= w.s.voy.next
    ensures var s, w' := w.s, WNext(w, Applying(y));
            && w'.s.logs.ready == s.logs.ready
            && if y.HandleStep? && s.voy.next < s.voy.position && s.voy.next < |s.logs.ready| then
                 && w'.s.voy.next == s.voy.next + 1
                 && (w'.h.voy.done == w.h.voy.done || w'.h.voy.done == w.h.voy.done + {s.voy.next})
                 && (s.logs.ready[s.voy.next].Garbage? ==>
                       && w'.h.voy.done == w.h.voy.done + {s.voy.next}
                       && w'.s.logs.readyDlq
                          == Appended(s.logs.readyDlq, s.logs.ready[s.voy.next], y.fate.deadLetter))
                 && (s.logs.ready[s.voy.next].Event? ==> w'.s.logs.readyDlq == s.logs.readyDlq)
               else
                 w'.s.voy.next <= s.voy.next && w'.h.voy.done == w.h.voy.done
                 && w'.s.logs.readyDlq == s.logs.readyDlq
  {
    hide Upsert, AppliedTo;
    match y
    case HandleStep(fate) =>
    case _ =>
  }

  // ---- whole runs --------------------------------------------------------------------------------

  function EstLetters(rate: Money, steps: seq<Step>): Letters
    decreases |steps|
  {
    if steps == [] then map[]
    else
      var n := |steps| - 1;
      EstNoted(Run(Initial(rate), steps[..n]), EstLetters(rate, steps[..n]), steps[n])
  }

  function VoyLetters(rate: Money, steps: seq<Step>): Letters
    decreases |steps|
  {
    if steps == [] then map[]
    else
      var n := |steps| - 1;
      VoyNoted(Run(Initial(rate), steps[..n]), VoyLetters(rate, steps[..n]), steps[n])
  }

  ghost predicate EstAlwaysLettered(rate: Money, steps: seq<Step>)
    decreases |steps|
  {
    && EstLettered(WRun(Start(rate), steps), EstLetters(rate, steps))
    && (steps != [] ==> EstAlwaysLettered(rate, steps[..|steps| - 1]))
  }

  ghost predicate VoyAlwaysLettered(rate: Money, steps: seq<Step>)
    decreases |steps|
  {
    && VoyLettered(WRun(Start(rate), steps), VoyLetters(rate, steps))
    && (steps != [] ==> VoyAlwaysLettered(rate, steps[..|steps| - 1]))
  }

  /** No step of the run drops a dead letter of a record that has none yet. */
  ghost predicate EstLetterGuarded(rate: Money, steps: seq<Step>)
    decreases |steps|
  {
    steps != [] ==>
      var init, step := steps[..|steps| - 1], steps[|steps| - 1];
      EstLetterGuarded(rate, init) && EstLetterGuard(Run(Initial(rate), init), EstLetters(rate, init), step)
  }

  ghost predicate VoyLetterGuarded(rate: Money, steps: seq<Step>)
    decreases |steps|
  {
    steps != [] ==>
      var init, step := steps[..|steps| - 1], steps[|steps| - 1];
      VoyLetterGuarded(rate, init) && VoyLetterGuard(Run(Initial(rate), init), VoyLetters(rate, init), step)
  }

  /** At every moment of a run every undecodable voyage.created record handled has had its own dead letter,
      exactly when no step of the run drops a first one. */
  lemma {:induction false} EstLetterExact(rate: Money, steps: seq<Step>)
    ensures EstAlwaysLettered(rate, steps) <==> EstLetterGuarded(rate, steps)
    decreases |steps|
  {
    hide Inv, WNext, Next, EstLetterGuard, EstLettered, EstNoted;
    if steps == [] {
      NothingLettered(rate);
    } else {
      var init := steps[..|steps| - 1];
      EstLetterExact(rate, init);
      ReachableInv(rate, init);
      if EstAlwaysLettered(rate, init) {
        assert EstLettered(WRun(Start(rate), init), EstLetters(rate, init));
        EstStepLettered(WRun(Start(rate), init), EstLetters(rate, init), steps[|steps| - 1]);
      }
    }
  }

  /** The same for the voyage consumer and estimate.ready. */
  lemma {:induction false} VoyLetterExact(rate: Money, steps: seq<Step>)
    ensures VoyAlwaysLettered(rate, steps) <==> VoyLetterGuarded(rate, steps)
    decreases |steps|
  {
    hide Inv, WNext, Next, VoyLetterGuard, VoyLettered, VoyNoted;
    if steps == [] {
      NothingLettered(rate);
    } else {
      var init := steps[..|steps| - 1];
      VoyLetterExact(rate, init);
      ReachableInv(rate, init);
      if VoyAlwaysLettered(rate, init) {
        assert VoyLettered(WRun(Start(rate), init), VoyLetters(rate, init));
        VoyStepLettered(WRun(Start(rate), init), VoyLetters(rate, init), steps[|steps| - 1]);
      }
    }
  }

  lemma NothingLettered(rate: Money)
    ensures EstLettered(WRun(Start(rate), []), map[]) && VoyLettered(WRun(Start(rate), []), map[])
  {}

  /** In every run each letter is a record's own. */
  lemma {:induction false} LettersAreOwn(rate: Money, steps: seq<Step>)
    ensures var logs := Run(Initial(rate), steps).logs;
            && OwnLetters(logs.created, logs.createdDlq, EstLetters(rate, steps))
            && OwnLetters(logs.ready, logs.readyDlq, VoyLetters(rate, steps))
    decreases |steps|
  {
    hide Inv, WNext, Next, OwnLetters, EstNoted, VoyNoted;
    if steps == [] {
      NoLetters(rate);
    } else {
      var init, step := steps[..|steps| - 1], steps[|steps| - 1];
      LettersAreOwn(rate, init);
      ReachableInv(rate, init);
      ReachableInv(rate, steps);
      EstStepOwn(WRun(Start(rate), init), EstLetters(rate, init), step);
      VoyStepOwn(WRun(Start(rate), init), VoyLetters(rate, init), step);
    }
  }

  lemma NoLetters(rate: Money)
    ensures var logs := Run(Initial(rate), []).logs;
            OwnLetters(logs.created, logs.createdDlq, map[]) && OwnLetters(logs.ready, logs.readyDlq, map[])
  {}

  // ---- committed poison pills ------------------------------------------------------------------------------

  /** Every undecodable record a member has got past was handled with success. */
  ghost predicate PoisonHandled<T>(log: seq<Record<T>>, next: nat, done: set<nat>) {
    forall o :: 0 <= o < next && o < |log| && log[o].Garbage? ==> o in done
  }

  ghost predicate EstPoison(w: World) { PoisonHandled(w.s.logs.created, w.s.est.next, w.h.est.done) }

  ghost predicate VoyPoison(w: World) { PoisonHandled(w.s.logs.ready, w.s.voy.next, w.h.voy.done) }

  lemma StepEstPoison(w: World, step: Step)
    requires Inv(w) && EstPoison(w)
    ensures EstPoison(WNext(w, step))
  {
    hide Inv, WNext;
    Positions(w);
    if step.Estimating? {
      EstimatorDoes(w, step.e);
    } else {
      OthersKeepEst(w, step);
    }
  }

  lemma StepVoyPoison(w: World, step: Step)
    requires Inv(w) && VoyPoison(w)
    ensures VoyPoison(WNext(w, step))
  {
    hide Inv, WNext;
    Positions(w);
    if step.Applying? {
      VoyageConsumerDoes(w, step.y);
    } else {
      OthersKeepVoy(w, step);
    }
  }

  lemma Positions(w: World)
    requires Inv(w)
    ensures w.s.logs.estimatorCommitted <= w.s.est.next <= |w.s.logs.created|
    ensures w.s.logs.voyageCommitted <= w.s.voy.next <= |w.s.logs.ready|
  {}

  lemma {:induction false} RunPoison(w: World, steps: seq<Step>)
    requires Inv(w) && EstPoison(w) && VoyPoison(w)
    ensures EstPoison(WRun(w, steps)) && VoyPoison(WRun(w, steps))
    decreases |steps|
  {
    hide Inv, WNext, EstPoison, VoyPoison;
    if steps != [] {
      var init := steps[..|steps| - 1];
      RunPoison(w, init);
      RunKeeps(w, init);
      StepEstPoison(WRun(w, init), steps[|steps| - 1]);
      StepVoyPoison(WRun(w, init), steps[|steps| - 1]);
    }
  }

  /** In a run in which no first dead letter is dropped, every undecodable record below a committed offset has a
      letter of its own in the dead-letter topic, with its bytes. */
  lemma CommittedPoisonIsLettered(rate: Money, steps: seq<Step>)
    requires EstLetterGuarded(rate, steps) && VoyLetterGuarded(rate, steps)
    ensures var logs, est, voy := Run(Initial(rate), steps).logs, EstLetters(rate, steps), VoyLetters(rate, steps);
            && OwnLetters(logs.created, logs.createdDlq, est) && OwnLetters(logs.ready, logs.readyDlq, voy)
            && (forall o :: 0 <= o < logs.estimatorCommitted && o < |logs.created| && logs.created[o].Garbage? ==>
                  o in est)
            && (forall o :: 0 <= o < logs.voyageCommitted && o < |logs.ready| && logs.ready[o].Garbage? ==>
                  o in voy)
  {
    hide Run, WRun, OwnLetters, Inv;
    ReachableInv(rate, steps);
    EstLetterExact(rate, steps);
    VoyLetterExact(rate, steps);
    LettersAreOwn(rate, steps);
    StartPoison(rate);
    RunPoison(Start(rate), steps);
    var w := WRun(Start(rate), steps);
    assert EstLettered(w, EstLetters(rate, steps)) && VoyLettered(w, VoyLetters(rate, steps));
    Positions(w);
  }

  lemma StartPoison(rate: Money)
    ensures Inv(Start(rate)) && EstPoison(Start(rate)) && VoyPoison(Start(rate))
  {
    StartInv(rate);
  }

  /** In particular its bytes are there. */
  lemma CommittedPoisonBytes(rate: Money, steps: seq<Step>, o: nat)
    requires EstLetterGuarded(rate, steps) && VoyLetterGuarded(rate, steps)
    ensures var logs := Run(Initial(rate), steps).logs;
            && (o < logs.estimatorCommitted && o < |logs.created| && logs.created[o].Garbage? ==>
                  logs.created[o] in logs.createdDlq)
            && (o < logs.voyageCommitted && o < |logs.ready| && logs.ready[o].Garbage? ==>
                  logs.ready[o] in logs.readyDlq)
  {
    hide Run;
    CommittedPoisonIsLettered(rate, steps);
  }
}
