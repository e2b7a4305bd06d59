/** Which rows a step writes, and what a claim returns. */
module PollingClaims {
  import opened Wrappers
  import opened Accrual
  import opened Orders
  import opened Polling

  predicate Claims(step: Step) {
    step.ClaimDue? || step.ClaimOne? || step.ClaimDueLost? || step.ClaimOneLost?
  }

  /** Whether the dispatcher of `i` is about to claim the notified order under `d`, which is due. */
  predicate ClaimsNotified(setup: Setup, w: World, i: InstanceId, d: Digest) {
    && i in w.instances && w.instances[i].dispatch.Ready? && w.instances[i].dispatch.target.Some?
    && var number := w.instances[i].dispatch.target.value;
       OneDue(setup, w, number, w.instances[i].dispatch.at) && d == setup.hash(number)
  }

  /** Whether a step claims the order under `d` or saves to it; it leaves all other rows alone. */
  ghost predicate Writes(setup: Setup, w: World, step: Step, d: Digest) {
    match step
    case ClaimDue(_, picked, _) => d in picked
    case ClaimDueLost(_, picked, _) => d in picked
    case ClaimOne(i) => ClaimsNotified(setup, w, i, d)
    case ClaimOneLost(i) => ClaimsNotified(setup, w, i, d)
    case Save(i, k) =>
      && HasWorker(w, i, k) && w.instances[i].workers[k].Saving?
      && d == setup.hash(w.instances[i].workers[k].update.number)
    case _ => false
  }

  lemma OtherRowsKept(setup: Setup, w: World, step: Step, d: Digest)
    requires Enabled(setup, w, step) && d in w.rows && !Writes(setup, w, step, d)
    ensures d in Apply(setup, w, step).rows && Apply(setup, w, step).rows[d] == w.rows[d]
  {
  }

  /** What submitting and saving write, field by field. */
  lemma SubmitsAndSaves(setup: Setup, w: World, step: Step)
    requires Enabled(setup, w, step) && (step.Submit? || step.Save?)
    ensures step.Submit? ==>
      var d := setup.hash(step.number);
      Apply(setup, w, step).rows
        == if d in w.rows then w.rows
           else w.rows[d := OrderRow(step.number, step.user, New, step.at, None, step.at, 0, Long)]
    ensures step.Save? ==>
      var u := w.instances[step.i].workers[step.k].update;
      var d := setup.hash(u.number);
      Apply(setup, w, step).rows
        == if && d in w.rows && w.rows[d].number == u.number
              && (w.rows[d].status == New || (w.rows[d].status == Processing && u.status != New))
           then w.rows[d := OrderRow(w.rows[d].number, w.rows[d].user, u.status, w.rows[d].uploadedAt, u.accrual,
                                     u.nextCheckAt, u.attempts, u.backoff)]
           else w.rows
  {
  }

  /** Claims take due rows only, and lease them. */
  lemma ClaimedRowsAreDue(setup: Setup, w: World, step: Step, d: Digest)
    requires Enabled(setup, w, step) && Claims(step) && Writes(setup, w, step, d)
    ensures d in w.rows && Due(w.rows[d], w.instances[step.i].dispatch.at)
    ensures d in Apply(setup, w, step).rows
    ensures Apply(setup, w, step).rows[d] == w.rows[d].(nextCheckAt := w.instances[step.i].dispatch.at + setup.lease)
  {
  }

  /** The job of a claimed order, if the claim's answer arrives. */
  lemma ClaimedRowsBecomeJobs(setup: Setup, w: World, step: Step, d: Digest) returns (slot: Slot)
    requires Enabled(setup, w, step) && (step.ClaimDue? || step.ClaimOne?) && Writes(setup, w, step, d)
    ensures slot.InHand? && JustClaimed(step, slot)
    ensures d in w.rows
    ensures JobAt(Apply(setup, w, step), slot)
         == Some(Job(PendingOf(w.rows[d]), w.instances[step.i].dispatch.at + setup.lease))
  {
    var n: nat := 0;
    if step.ClaimDue? {
      n :| n < |step.picked| && step.picked[n] == d;
    }
    slot := InHand(step.i, n);
  }

  // ---------------------------------------------------------------- what is saved is what is claimed next

  /** No step of the run claims the order under `d` or saves to it. */
  ghost predicate Unwritten(setup: Setup, w: World, steps: seq<Step>, d: Digest)
    requires Possible(setup, w, steps)
    decreases |steps|
  {
    steps == [] || (!Writes(setup, w, steps[0], d) && Unwritten(setup, Apply(setup, w, steps[0]), steps[1..], d))
  }

  lemma {:induction false} UnwrittenRowStays(setup: Setup, w: World, steps: seq<Step>, d: Digest)
    requires Possible(setup, w, steps) && Unwritten(setup, w, steps, d) && d in w.rows
    ensures d in After(setup, w, steps).rows && After(setup, w, steps).rows[d] == w.rows[d]
    decreases |steps|
  {
    if steps != [] {
      OtherRowsKept(setup, w, steps[0], d);
      UnwrittenRowStays(setup, Apply(setup, w, steps[0]), steps[1..], d);
    }
  }

  /** After a worker's update has been saved, whatever happens to other orders, the next claim that
      takes the order returns what was saved, and it takes the order only if that left it open
      and its time has come; a claim for a notification of it takes it exactly then. */
  lemma SavedIsClaimedNext(setup: Setup, w: World, i: InstanceId, k: nat, steps: seq<Step>, claim: Step)
    returns (slot: Slot)
    requires Enabled(setup, w, Save(i, k)) && Possible(setup, Apply(setup, w, Save(i, k)), steps)
    requires var u := w.instances[i].workers[k].update;
      var d := setup.hash(u.number);
      && d in w.rows && w.rows[d].number == u.number
      && (w.rows[d].status == New || (w.rows[d].status == Processing && u.status != New))
      && Unwritten(setup, Apply(setup, w, Save(i, k)), steps, setup.hash(u.number))
    requires var end := After(setup, Apply(setup, w, Save(i, k)), steps);
      Enabled(setup, end, claim) && (claim.ClaimDue? || claim.ClaimOne?)
    ensures var u, end := w.instances[i].workers[k].update, After(setup, Apply(setup, w, Save(i, k)), steps);
      var d, dispatch := setup.hash(u.number), end.instances[claim.i].dispatch;
      && (Writes(setup, end, claim, d) ==>
            && (u.status == New || u.status == Processing) && u.nextCheckAt <= dispatch.at && JustClaimed(claim, slot)
            && JobAt(Apply(setup, end, claim), slot)
               == Some(Job(Pending(u.number, u.status, u.attempts, u.backoff), dispatch.at + setup.lease)))
      && (dispatch.target == Some(u.number) ==>
            (Writes(setup, end, claim, d) <==>
              (u.status == New || u.status == Processing) && u.nextCheckAt <= dispatch.at))
  {
    var u, w' := w.instances[i].workers[k].update, Apply(setup, w, Save(i, k));
    var d, end := setup.hash(u.number), After(setup, w', steps);
    UnwrittenRowStays(setup, w', steps, d);
    assert end.rows[d] == Written(w.rows[d], u);
    slot := InHand(0, 0);
    if Writes(setup, end, claim, d) {
      ClaimedRowsAreDue(setup, end, claim, d);
      slot := ClaimedRowsBecomeJobs(setup, end, claim, d);
    }
  }
}
