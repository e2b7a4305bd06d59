/** Leases keep jobs exclusive as long as jobs end in time. */
module PollingLease {
  import opened Wrappers
  import opened OrderNumber
  import opened Accrual
  import opened Orders
  import opened Polling
  import opened PollingClaims
  import opened PollingRuns
  import opened PollingSafety

  /** No live job has outlasted its lease. */
  ghost predicate Timely(w: World) {
    forall slot | Live(w, slot) :: w.clock < JobAt(w, slot).value.lease
  }

  function DigestOf(setup: Setup, job: Job): Digest {
    setup.hash(job.pending.number)
  }

  /** The row of a live job: still as it was claimed, and leased to it. */
  predicate LeasedTo(setup: Setup, rows: Rows, job: Job) {
    var d := DigestOf(setup, job);
    d in rows && PendingOf(rows[d]) == job.pending && Open(rows[d].status) && rows[d].nextCheckAt == job.lease
  }

  /** Each order has at most one live job, over all instances, and its row is leased to it. */
  ghost predicate Exclusive(setup: Setup, w: World) {
    && (forall a, b | Live(w, a) && Live(w, b) && a != b ::
          DigestOf(setup, JobAt(w, a).value) != DigestOf(setup, JobAt(w, b).value))
    && (forall slot | Live(w, slot) :: LeasedTo(setup, w.rows, JobAt(w, slot).value))
  }

  /** What the exclusivity argument needs besides: rows under their digests, readings from the past. */
  ghost predicate Grounded(setup: Setup, w: World) {
    && ValidWorld(setup, w) && WithinHorizon(setup, w)
  }

  /** A live job's order is not due, so no claim returns it again. */
  lemma LiveJobsAreNotDue(setup: Setup, w: World, slot: Slot, at: Time)
    requires Exclusive(setup, w) && Timely(w) && Live(w, slot) && at <= w.clock
    ensures var d := DigestOf(setup, JobAt(w, slot).value); d in w.rows && !Due(w.rows[d], at)
  {
  }

  /** A claim made with a reading at or after the end of a live job's lease, of the order of that job. */
  ghost predicate Reclaims(setup: Setup, w: World, step: Step)
    requires Enabled(setup, w, step)
  {
    Claims(step) && exists slot :: Retaken(setup, w, step, slot)
  }

  ghost predicate Retaken(setup: Setup, w: World, step: Step, slot: Slot)
    requires Enabled(setup, w, step) && Claims(step)
  {
    && Live(w, slot) && JobAt(w, slot).value.lease <= w.instances[step.i].dispatch.at
    && Writes(setup, w, step, DigestOf(setup, JobAt(w, slot).value))
  }

  /** If all live jobs are within their leases, no claim is of that kind. */
  lemma TimelyClaims(setup: Setup, w: World, step: Step)
    requires Grounded(setup, w) && Timely(w) && Enabled(setup, w, step)
    ensures !Reclaims(setup, w, step)
  {
    if Claims(step) {
      assert InstanceWithin(w.instances[step.i], w.clock, w.longestPause);
    }
  }

  /** A step that writes the row of a live job is that job's own save. */
  lemma OnlyOwnSaveWrites(setup: Setup, w: World, step: Step, slot: Slot)
    requires Grounded(setup, w) && Exclusive(setup, w) && Enabled(setup, w, step) && !Reclaims(setup, w, step)
    requires Live(w, slot) && Writes(setup, w, step, DigestOf(setup, JobAt(w, slot).value))
    ensures step.Save? && slot == AtWorker(step.i, step.k)
  {
    var d := DigestOf(setup, JobAt(w, slot).value);
    if Claims(step) {
      ClaimedRowsAreDue(setup, w, step, d);
      assert Retaken(setup, w, step, slot);
    } else {
      var own := AtWorker(step.i, step.k);
      assert Live(w, own) && ValidWork(w.instances[step.i].workers[step.k]);
      assert DigestOf(setup, JobAt(w, own).value) == d;
    }
  }

  /** A job that was live before stays leased to. */
  lemma LeaseStays(setup: Setup, w: World, step: Step, slot: Slot)
    requires Grounded(setup, w) && Exclusive(setup, w) && Enabled(setup, w, step) && !Reclaims(setup, w, step)
    requires Live(Apply(setup, w, step), slot) && !JustClaimed(step, slot)
    ensures LeasedTo(setup, Apply(setup, w, step).rows, JobAt(Apply(setup, w, step), slot).value)
  {
    JobsMove(setup, w, step, slot);
    var source := Source(w, step, slot);
    var d := DigestOf(setup, JobAt(w, source).value);
    if Writes(setup, w, step, d) {
      OnlyOwnSaveWrites(setup, w, step, source);
      assert false;
    } else {
      OtherRowsKept(setup, w, step, d);
    }
  }

  lemma NewJobDigest(setup: Setup, w: World, step: Step, slot: Slot)
    requires ValidWorld(setup, w) && Enabled(setup, w, step)
    requires Live(Apply(setup, w, step), slot) && JustClaimed(step, slot)
    ensures var job, d := JobAt(Apply(setup, w, step), slot).value, ClaimedDigest(setup, w, step, slot);
      DigestOf(setup, job) == d && LeasedTo(setup, Apply(setup, w, step).rows, job) && Writes(setup, w, step, d)
  {
    ClaimedJob(setup, w, step, slot);
  }

  lemma JobsStayApart(setup: Setup, w: World, step: Step, a: Slot, b: Slot)
    requires Grounded(setup, w) && Exclusive(setup, w) && Enabled(setup, w, step) && !Reclaims(setup, w, step)
    requires a != b
    requires Live(Apply(setup, w, step), a) && Live(Apply(setup, w, step), b)
    ensures var w' := Apply(setup, w, step);
      DigestOf(setup, JobAt(w', a).value) != DigestOf(setup, JobAt(w', b).value)
  {
    if JustClaimed(step, a) && JustClaimed(step, b) {
      NewJobDigest(setup, w, step, a);
      NewJobDigest(setup, w, step, b);
    } else if JustClaimed(step, a) {
      NewJobApart(setup, w, step, a, b);
    } else if JustClaimed(step, b) {
      NewJobApart(setup, w, step, b, a);
    } else {
      JobsMove(setup, w, step, a);
      JobsMove(setup, w, step, b);
      SourcesDiffer(w, step, a, b);
    }
  }

  lemma NewJobApart(setup: Setup, w: World, step: Step, claimed: Slot, other: Slot)
    requires Grounded(setup, w) && Exclusive(setup, w) && Enabled(setup, w, step) && !Reclaims(setup, w, step)
    requires Live(Apply(setup, w, step), claimed) && Live(Apply(setup, w, step), other)
    requires JustClaimed(step, claimed) && !JustClaimed(step, other)
    ensures var w' := Apply(setup, w, step);
      DigestOf(setup, JobAt(w', claimed).value) != DigestOf(setup, JobAt(w', other).value)
  {
    NewJobDigest(setup, w, step, claimed);
    JobsMove(setup, w, step, other);
    if Writes(setup, w, step, DigestOf(setup, JobAt(w, other).value)) {
      OnlyOwnSaveWrites(setup, w, step, other);
    }
  }

  lemma ExclusivePreserved(setup: Setup, w: World, step: Step)
    requires Grounded(setup, w) && Exclusive(setup, w) && Enabled(setup, w, step) && !Reclaims(setup, w, step)
    ensures Exclusive(setup, Apply(setup, w, step))
  {
    var w' := Apply(setup, w, step);
    forall a, b | Live(w', a) && Live(w', b) && a != b
      ensures DigestOf(setup, JobAt(w', a).value) != DigestOf(setup, JobAt(w', b).value) {
      JobsStayApart(setup, w, step, a, b);
    }
    forall slot | Live(w', slot) ensures LeasedTo(setup, w'.rows, JobAt(w', slot).value) {
      if JustClaimed(step, slot) {
        NewJobDigest(setup, w, step, slot);
      } else {
        LeaseStays(setup, w, step, slot);
      }
    }
  }

  ghost predicate HasTwoJobs(setup: Setup, w: World, d: Digest) {
    exists a, b :: a != b && Live(w, a) && Live(w, b)
      && DigestOf(setup, JobAt(w, a).value) == d && DigestOf(setup, JobAt(w, b).value) == d
  }

  /** Taking the order of a live job again gives it a second job, or leaves its row leased past the
      live job's lease. */
  lemma ReclaimingEndsExclusive(setup: Setup, w: World, step: Step)
    requires Exclusive(setup, w) && setup.lease > 0 && Enabled(setup, w, step) && Reclaims(setup, w, step)
    ensures !Exclusive(setup, Apply(setup, w, step))
    ensures step.ClaimDue? || step.ClaimOne? ==> exists d :: HasTwoJobs(setup, Apply(setup, w, step), d)
  {
    var w' := Apply(setup, w, step);
    var slot :| Retaken(setup, w, step, slot);
    var job := JobAt(w, slot).value;
    var d := DigestOf(setup, job);
    ClaimedRowsAreDue(setup, w, step, d);
    ClaimsKeepJobs(setup, w, step, slot);
    assert !LeasedTo(setup, w'.rows, job);
    if step.ClaimDue? || step.ClaimOne? {
      var claimed := ClaimedRowsBecomeJobs(setup, w, step, d);
      assert claimed != slot;
      assert HasTwoJobs(setup, w', d);
    }
  }

  lemma ClaimsKeepJobs(setup: Setup, w: World, step: Step, slot: Slot)
    requires Enabled(setup, w, step) && Claims(step) && Live(w, slot)
    ensures JobAt(Apply(setup, w, step), slot) == JobAt(w, slot)
  {
  }

  /** The code does not see to it that jobs end in time. Exactly when it matters: a step of any
      instance keeps jobs exclusive if and only if it is not a claim, its answer lost or not, that
      takes the order of a live job again with a reading at or after the end of that job's lease. */
  lemma StepKeepsExclusiveExactlyWithinLeases(setup: Setup, w: World, step: Step)
    requires Grounded(setup, w) && Exclusive(setup, w) && setup.lease > 0 && Enabled(setup, w, step)
    ensures Exclusive(setup, Apply(setup, w, step)) <==> !Reclaims(setup, w, step)
  {
    if Reclaims(setup, w, step) {
      ReclaimingEndsExclusive(setup, w, step);
    } else {
      ExclusivePreserved(setup, w, step);
    }
  }

  // ---------------------------------------------------------------- whole runs

  /** Jobs are exclusive in every state of the run. */
  ghost predicate AlwaysExclusive(setup: Setup, w: World, steps: seq<Step>)
    requires Possible(setup, w, steps)
    decreases |steps|
  {
    Exclusive(setup, w) && (steps != [] ==> AlwaysExclusive(setup, Apply(setup, w, steps[0]), steps[1..]))
  }

  /** No step of the run takes the order of a live job again. */
  ghost predicate NeverReclaims(setup: Setup, w: World, steps: seq<Step>)
    requires Possible(setup, w, steps)
    decreases |steps|
  {
    steps == [] || (!Reclaims(setup, w, steps[0]) && NeverReclaims(setup, Apply(setup, w, steps[0]), steps[1..]))
  }

  /** On every run, over any number of instances, each order has at most one live job and its row is
      leased to it in every state, if and only if no claim of the run retakes a live job's order
      at or after the end of its lease. */
  lemma {:induction false} JobsAreExclusiveExactlyWithinLeases(setup: Setup, w: World, steps: seq<Step>)
    requires Grounded(setup, w) && Exclusive(setup, w) && setup.lease > 0 && Possible(setup, w, steps)
    ensures AlwaysExclusive(setup, w, steps) <==> NeverReclaims(setup, w, steps)
    decreases |steps|
  {
    if steps != [] {
      var w' := Apply(setup, w, steps[0]);
      StepKeepsExclusiveExactlyWithinLeases(setup, w, steps[0]);
      ValidityPreserved(setup, w, steps[0]);
      WithinHorizonPreserved(setup, w, steps[0]);
      if Exclusive(setup, w') {
        JobsAreExclusiveExactlyWithinLeases(setup, w', steps[1..]);
      }
    }
  }

  /** Whether jobs are timely in every state of a run. */
  ghost predicate TimelyRun(setup: Setup, w: World, steps: seq<Step>)
    requires Possible(setup, w, steps)
    decreases |steps|
  {
    Timely(w) && (steps != [] ==> TimelyRun(setup, Apply(setup, w, steps[0]), steps[1..]))
  }

  /** If no job outlasts its lease, then on every run, across all instances, each order has at
      most one live job; its row is unchanged since the claim and leased to that job, so that
      no claim can return the order again while the job lives. */
  lemma {:induction false} LeasesAreExclusive(setup: Setup, w: World, steps: seq<Step>)
    requires Grounded(setup, w) && Exclusive(setup, w) && Possible(setup, w, steps) && TimelyRun(setup, w, steps)
    ensures Exclusive(setup, After(setup, w, steps))
    ensures forall slot, at | Live(After(setup, w, steps), slot) && at <= After(setup, w, steps).clock ::
      var end := After(setup, w, steps);
      var d := DigestOf(setup, JobAt(end, slot).value); d in end.rows && !Due(end.rows[d], at)
    decreases |steps|
  {
    if steps != [] {
      TimelyClaims(setup, w, steps[0]);
      ExclusivePreserved(setup, w, steps[0]);
      ValidityPreserved(setup, w, steps[0]);
      WithinHorizonPreserved(setup, w, steps[0]);
      LeasesAreExclusive(setup, Apply(setup, w, steps[0]), steps[1..]);
    } else {
      forall slot, at | Live(w, slot) && at <= w.clock
        ensures var d := DigestOf(setup, JobAt(w, slot).value); d in w.rows && !Due(w.rows[d], at) {
        LiveJobsAreNotDue(setup, w, slot, at);
      }
    }
  }

  /** From every state on, a run in which jobs take longer than their leases gives an order two
      live jobs: it is submitted and claimed, its job waits out the lease in the queue, and the
      order is claimed again. */
  lemma LateJobsAreDoubled(setup: Setup, w: World, number: Number, user: UserId) returns (steps: seq<Step>, end: World)
    requires setup.lease > 0 && w.clock >= 0 && ValidNumber(number) && setup.hash(number) !in w.rows
    ensures Leads(setup, w, steps, end) && HasTwoJobs(setup, end, setup.hash(number)) && !Exclusive(setup, end)
  {
    var i, job := w.nextId, Job(Fresh(number), w.clock + setup.lease);
    steps, end := [], w;
    assert Leads(setup, w, steps, end);
    steps, end := Then(setup, w, steps, end, Start(2, 1));
    var more, next := SubmitAndQueue(setup, end, i, number, user);
    Join(setup, w, steps, end, more, next);
    steps, end := Then(setup, w, steps + more, next, Tick(setup.lease));
    more, next := ClaimNotified(setup, end, i, number);
    Join(setup, w, steps, end, more, next);
    steps, end := steps + more, next;
    assert JobAt(end, InQueue(i, 0)) == Some(job);
    assert JobAt(end, InHand(i, 0)) == Some(Job(Fresh(number), w.clock + 2 * setup.lease));
  }

  /** A database without running instances, with whatever valid orders it holds, is where runs start. */
  lemma NoInstancesYet(setup: Setup, w: World)
    requires w.instances == map[] && w.longestPause >= 0 && ValidRows(w.rows, setup.hash)
    requires forall d | d in w.rows :: w.rows[d].nextCheckAt <= Horizon(setup, w)
    ensures Grounded(setup, w) && Exclusive(setup, w) && QueuesFit(w)
  {
  }
}
