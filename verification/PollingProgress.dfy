/** No due order is starved: the earliest are claimed first, and a claimed or answered order
    goes behind those that are already due. */
module PollingProgress {
  import opened Accrual
  import opened Orders
  import opened Polling
  import opened PollingSafety
  import opened SetSizes

  /** The open orders whose check was due at `d`. */
  ghost function Overdue(rows: Rows, d: Time): set<Digest> {
    set x | x in rows && Due(rows[x], d)
  }

  // ---------------------------------------------------------------- old readings

  /** Nothing a worker has in hand can bring an order back to `d` or earlier. */
  predicate WorkPast(work: Work, d: Time) {
    match work
    case Timed(_, at) => at > d
    case Limited(_, until) => until > d
    case Saving(_, update) => Open(update.status) ==> update.nextCheckAt > d
    case _ => true
  }

  predicate DispatchPast(dispatch: Dispatch, d: Time) {
    dispatch.Read? || dispatch.Ready? ==> dispatch.at > d
  }

  /** The dispatchers still acting on a reading from `d` or before. */
  ghost function StaleDispatchers(w: World, d: Time): set<InstanceId> {
    set i | i in w.instances && !DispatchPast(w.instances[i].dispatch, d)
  }

  /** The workers that may still put an order back to `d` or before. */
  ghost function StaleWorkers(w: World, d: Time): set<(InstanceId, nat)> {
    set i, k: nat | i in w.instances && k < |w.instances[i].workers|
        && !WorkPast(w.instances[i].workers[k], d) :: (i, k)
  }

  /** With the clock past `d`, no dispatcher and no worker becomes stale. */
  lemma DispatchStaysPast(setup: Setup, w: World, step: Step, d: Time, i: InstanceId)
    requires w.clock > d && (i in w.instances ==> DispatchPast(w.instances[i].dispatch, d))
    requires Enabled(setup, w, step) && i in Apply(setup, w, step).instances
    ensures DispatchPast(Apply(setup, w, step).instances[i].dispatch, d)
  {
    if !Dispatches(step, i) {
      DispatcherKeeps(setup, w, step, i);
    }
  }

  lemma WorkStaysPast(setup: Setup, w: World, step: Step, d: Time, i: InstanceId, k: nat)
    requires w.clock > d && (HasWorker(w, i, k) ==> WorkPast(w.instances[i].workers[k], d))
    requires ValidWorld(setup, w) && Enabled(setup, w, step) && HasWorker(Apply(setup, w, step), i, k)
    ensures WorkPast(Apply(setup, w, step).instances[i].workers[k], d)
  {
    WorkersKeep(setup, w, step, i, k);
    if Touches(step, i, k) && step.Receive? {
      assert Live(w, AtWorker(i, k));
      RespondKeepsValidity(w.instances[i].workers[k].job.pending, step.response, w.clock, 0);
    }
  }

  lemma StaleDispatchersShrink(setup: Setup, w: World, step: Step, d: Time)
    requires w.clock > d && Enabled(setup, w, step)
    ensures StaleDispatchers(Apply(setup, w, step), d) <= StaleDispatchers(w, d)
  {
    var w' := Apply(setup, w, step);
    forall i | i in StaleDispatchers(w', d) ensures i in StaleDispatchers(w, d) {
      if i !in w.instances || DispatchPast(w.instances[i].dispatch, d) {
        DispatchStaysPast(setup, w, step, d, i);
      }
    }
  }

  lemma StaleWorkersShrink(setup: Setup, w: World, step: Step, d: Time)
    requires w.clock > d && ValidWorld(setup, w) && Enabled(setup, w, step)
    ensures StaleWorkers(Apply(setup, w, step), d) <= StaleWorkers(w, d)
  {
    var w' := Apply(setup, w, step);
    forall i: InstanceId, k: nat | (i, k) in StaleWorkers(w', d) ensures (i, k) in StaleWorkers(w, d) {
      if !HasWorker(w, i, k) || WorkPast(w.instances[i].workers[k], d) {
        WorkStaysPast(setup, w, step, d, i, k);
      }
    }
  }

  // ---------------------------------------------------------------- what a round achieves

  /** A round: a dispatcher's claim of due orders that finds none of them locked. */
  predicate Round(step: Step) {
    (step.ClaimDue? || step.ClaimDueLost?) && step.locked == {}
  }

  /** A round made with a reading past `d` claims one of the orders overdue at `d`, if there are any,
      whatever all other dispatchers and workers are acting on. */
  lemma RoundClaimsOverdue(setup: Setup, w: World, step: Step, d: Time)
    requires QueuesFit(w) && setup.lease > 0 && Enabled(setup, w, step) && Round(step)
    requires w.instances[step.i].dispatch.at > d && Overdue(w.rows, d) != {}
    ensures step.picked != [] && step.picked[0] in Overdue(w.rows, d)
    ensures step.picked[0] !in Overdue(Apply(setup, w, step).rows, d)
  {
    var dispatch := w.instances[step.i].dispatch;
    assert QueueFits(w.instances[step.i]);
    var x :| x in Overdue(w.rows, d);
    assert Due(w.rows[x], dispatch.at);
  }

  /** Only a submission that is backdated to `d`, or a stale worker's save, makes an order overdue at `d`. */
  lemma OverdueShrinks(setup: Setup, w: World, step: Step, d: Time)
    requires setup.lease > 0 && Enabled(setup, w, step) && !Joins(step, d)
    requires step.Save? ==> WorkPast(w.instances[step.i].workers[step.k], d)
    ensures Overdue(Apply(setup, w, step).rows, d) <= Overdue(w.rows, d)
  {
  }

  /** An order submitted with a time up to `d` joins those due at `d`. */
  predicate Joins(step: Step, d: Time) {
    step.Submit? && step.at <= d
  }

  /** A stale save or a backdated submission adds one order at most. */
  lemma OneBecomesOverdue(setup: Setup, w: World, step: Step, d: Time)
    requires Enabled(setup, w, step) && (step.Save? || step.Submit?)
    ensures |Overdue(Apply(setup, w, step).rows, d)| <= |Overdue(w.rows, d)| + 1
  {
    var x := setup.hash(if step.Save? then w.instances[step.i].workers[step.k].update.number else step.number);
    Shrinks(Overdue(Apply(setup, w, step).rows, d), Overdue(w.rows, d) + {x});
  }

  /** How many rounds it may still take to claim everything overdue at `d`. */
  ghost function RoundsLeft(w: World, d: Time): nat {
    |Overdue(w.rows, d)| + |StaleWorkers(w, d)| + |StaleDispatchers(w, d)|
  }

  lemma StaleSave(setup: Setup, w: World, step: Step, d: Time)
    requires w.clock > d && ValidWorld(setup, w) && Enabled(setup, w, step) && step.Save?
    requires !WorkPast(w.instances[step.i].workers[step.k], d)
    ensures |StaleWorkers(Apply(setup, w, step), d)| < |StaleWorkers(w, d)|
  {
    StaleWorkersShrink(setup, w, step, d);
    assert (step.i, step.k) in StaleWorkers(w, d) && (step.i, step.k) !in StaleWorkers(Apply(setup, w, step), d);
    Shrinks(StaleWorkers(Apply(setup, w, step), d), StaleWorkers(w, d));
  }

  lemma OverdueMeasure(setup: Setup, w: World, step: Step, d: Time)
    requires w.clock > d && ValidWorld(setup, w) && setup.lease > 0 && Enabled(setup, w, step)
    ensures var w' := Apply(setup, w, step);
      |Overdue(w'.rows, d)| + |StaleWorkers(w', d)|
      <= |Overdue(w.rows, d)| + |StaleWorkers(w, d)| + if Joins(step, d) then 1 else 0
  {
    var w' := Apply(setup, w, step);
    StaleWorkersShrink(setup, w, step, d);
    Shrinks(StaleWorkers(w', d), StaleWorkers(w, d));
    if Joins(step, d) {
      OneBecomesOverdue(setup, w, step, d);
    } else if step.Save? && !WorkPast(w.instances[step.i].workers[step.k], d) {
      StaleSave(setup, w, step, d);
      OneBecomesOverdue(setup, w, step, d);
    } else {
      OverdueShrinks(setup, w, step, d);
      Shrinks(Overdue(w'.rows, d), Overdue(w.rows, d));
    }
  }

  /** A round made while orders are overdue claims one of them, or uses up a stale reading. */
  lemma RoundCounts(setup: Setup, w: World, step: Step, d: Time)
    requires w.clock > d && ValidWorld(setup, w) && QueuesFit(w) && setup.lease > 0
    requires Enabled(setup, w, step) && Round(step) && Overdue(w.rows, d) != {}
    ensures RoundsLeft(Apply(setup, w, step), d) < RoundsLeft(w, d)
  {
    var w' := Apply(setup, w, step);
    StaleWorkersShrink(setup, w, step, d);
    Shrinks(StaleWorkers(w', d), StaleWorkers(w, d));
    StaleDispatchersShrink(setup, w, step, d);
    OverdueShrinks(setup, w, step, d);
    if DispatchPast(w.instances[step.i].dispatch, d) {
      RoundClaimsOverdue(setup, w, step, d);
    } else {
      assert step.i in StaleDispatchers(w, d) && step.i !in StaleDispatchers(w', d);
    }
    Shrinks(Overdue(w'.rows, d), Overdue(w.rows, d));
    Shrinks(StaleDispatchers(w', d), StaleDispatchers(w, d));
  }

  lemma StepCounts(setup: Setup, w: World, step: Step, d: Time)
    requires w.clock > d && ValidWorld(setup, w) && QueuesFit(w) && setup.lease > 0 && Enabled(setup, w, step)
    ensures RoundsLeft(Apply(setup, w, step), d) + (if Round(step) && Overdue(w.rows, d) != {} then 1 else 0)
         <= RoundsLeft(w, d) + if Joins(step, d) then 1 else 0
  {
    if Round(step) && Overdue(w.rows, d) != {} {
      RoundCounts(setup, w, step, d);
    } else {
      OverdueMeasure(setup, w, step, d);
      StaleDispatchersShrink(setup, w, step, d);
      Shrinks(StaleDispatchers(Apply(setup, w, step), d), StaleDispatchers(w, d));
    }
  }

  // ---------------------------------------------------------------- whole runs

  /** The rounds of a run that are made while orders are overdue at `d`. */
  ghost function OverdueRounds(setup: Setup, w: World, steps: seq<Step>, d: Time): nat
    requires Possible(setup, w, steps)
    decreases |steps|
  {
    if steps == [] then 0
    else (if Round(steps[0]) && Overdue(w.rows, d) != {} then 1 else 0)
         + OverdueRounds(setup, Apply(setup, w, steps[0]), steps[1..], d)
  }

  function Rounds(steps: seq<Step>): nat {
    if steps == [] then 0 else (if Round(steps[0]) then 1 else 0) + Rounds(steps[1..])
  }

  /** The submissions of a run that are backdated to `d` or before. */
  function Joining(steps: seq<Step>, d: Time): nat {
    if steps == [] then 0 else (if Joins(steps[0], d) then 1 else 0) + Joining(steps[1..], d)
  }

  /** Once the clock has passed `d`, only so many rounds can find orders overdue at `d`: one for
      each such order, each dispatcher and worker still acting on an older reading, and each
      order submitted later with a time up to `d`; what is left at the end is not used up. */
  lemma {:induction false} OverdueRoundsAreBounded(setup: Setup, w: World, steps: seq<Step>, d: Time)
    requires w.clock > d && ValidWorld(setup, w) && QueuesFit(w) && setup.lease > 0 && Possible(setup, w, steps)
    ensures OverdueRounds(setup, w, steps, d) + RoundsLeft(After(setup, w, steps), d)
         <= RoundsLeft(w, d) + Joining(steps, d)
    decreases |steps|
  {
    if steps != [] {
      var w' := Apply(setup, w, steps[0]);
      HorizonGrows(setup, w, steps[0]);
      ValidityPreserved(setup, w, steps[0]);
      QueuesFitPreserved(setup, w, steps[0]);
      StepCounts(setup, w, steps[0], d);
      OverdueRoundsAreBounded(setup, w', steps[1..], d);
    }
  }

  /** Order `x` has been due at `d` and unclaimed in every state of the run. */
  ghost predicate StaysOverdue(setup: Setup, w: World, steps: seq<Step>, d: Time, x: Digest)
    requires Possible(setup, w, steps)
    decreases |steps|
  {
    x in Overdue(w.rows, d) && (steps != [] ==> StaysOverdue(setup, Apply(setup, w, steps[0]), steps[1..], d, x))
  }

  lemma {:induction false} EveryRoundCounts(setup: Setup, w: World, steps: seq<Step>, d: Time, x: Digest)
    requires Possible(setup, w, steps) && StaysOverdue(setup, w, steps, d, x)
    ensures OverdueRounds(setup, w, steps, d) == Rounds(steps) && x in Overdue(After(setup, w, steps).rows, d)
    decreases |steps|
  {
    if steps != [] {
      EveryRoundCounts(setup, Apply(setup, w, steps[0]), steps[1..], d, x);
    }
  }

  /** No due order is starved: once the clock has passed the time `d` at which an order is due, a run
      in which it is neither claimed nor closed has fewer rounds than `RoundsLeft` and the backdated
      submissions. */
  lemma DueOrdersAreClaimed(setup: Setup, w: World, steps: seq<Step>, d: Time, x: Digest)
    requires w.clock > d && ValidWorld(setup, w) && QueuesFit(w) && setup.lease > 0
    requires Possible(setup, w, steps) && StaysOverdue(setup, w, steps, d, x)
    ensures Rounds(steps) < RoundsLeft(w, d) + Joining(steps, d)
  {
    EveryRoundCounts(setup, w, steps, d, x);
    OverdueRoundsAreBounded(setup, w, steps, d);
    Shrinks({x}, Overdue(After(setup, w, steps).rows, d));
  }

  // ---------------------------------------------------------------- with nothing stale

  /** Every reading and schedule that instances act on has passed `d`, too. */
  ghost predicate Past(w: World, d: Time) {
    w.clock > d && StaleDispatchers(w, d) == {} && StaleWorkers(w, d) == {}
  }

  lemma {:induction false} PastRunsOnlyShrink(setup: Setup, w: World, steps: seq<Step>, d: Time, x: Digest)
    requires Past(w, d) && ValidWorld(setup, w) && setup.lease > 0
    requires Possible(setup, w, steps) && Joining(steps, d) == 0
    requires x in Overdue(After(setup, w, steps).rows, d)
    ensures StaysOverdue(setup, w, steps, d, x)
    decreases |steps|
  {
    if steps != [] {
      var w', step := Apply(setup, w, steps[0]), steps[0];
      HorizonGrows(setup, w, step);
      StaleDispatchersShrink(setup, w, step, d);
      StaleWorkersShrink(setup, w, step, d);
      ValidityPreserved(setup, w, step);
      PastRunsOnlyShrink(setup, w', steps[1..], d, x);
      assert step.Save? ==> (step.i, step.k) !in StaleWorkers(w, d);
      OverdueShrinks(setup, w, step, d);
    }
  }

  /** From then on no order becomes overdue again, and as many rounds as orders are overdue claim them all. */
  lemma PastOrdersAreClaimed(setup: Setup, w: World, steps: seq<Step>, d: Time, x: Digest)
    requires Past(w, d) && ValidWorld(setup, w) && QueuesFit(w) && setup.lease > 0
    requires Possible(setup, w, steps) && Joining(steps, d) == 0
    requires x in Overdue(After(setup, w, steps).rows, d)
    ensures x in Overdue(w.rows, d) && Rounds(steps) < |Overdue(w.rows, d)|
  {
    PastRunsOnlyShrink(setup, w, steps, d, x);
    DueOrdersAreClaimed(setup, w, steps, d, x);
  }
}
