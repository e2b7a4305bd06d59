/** How far requests to the accrual system outrun a pause. */
module PollingPause {
  import opened OrderNumber
  import opened Accrual
  import opened Orders
  import opened Polling
  import opened PollingRuns
  import opened PollingSafety
  import opened SetSizes

  /** A worker admitted by a clock reading from before `until` that has not started its request. */
  predicate Straggler(work: Work, until: Time) {
    work.Admitted? && work.at < until
  }

  function Stragglers(w: World, i: InstanceId, until: Time): set<nat> {
    if i in w.instances then set k: nat | k < |w.instances[i].workers|
        && Straggler(w.instances[i].workers[k], until) else {}
  }

  /** Whether a step starts a request of instance `i` admitted by a reading from before `until`. */
  ghost predicate StartsLate(w: World, step: Step, i: InstanceId, until: Time) {
    step.StartFetch? && step.i == i && HasWorker(w, i, step.k) && Straggler(w.instances[i].workers[step.k], until)
  }

  ghost function LateStarts(setup: Setup, w: World, steps: seq<Step>, i: InstanceId, until: Time): nat
    requires Possible(setup, w, steps)
    decreases |steps|
  {
    if steps == [] then 0
    else
      (if StartsLate(w, steps[0], i, until) then 1 else 0)
      + LateStarts(setup, Apply(setup, w, steps[0]), steps[1..], i, until)
  }

  /** Instance `i` is paused until at least `until`, or has stopped; instance numbers are not reused. */
  predicate PausedOrGone(w: World, i: InstanceId, until: Time) {
    i < w.nextId && (i in w.instances ==> w.instances[i].pausedUntil >= until)
  }

  /** Pauses are never taken back. */
  lemma PauseNeverShrinks(setup: Setup, w: World, step: Step, i: InstanceId)
    requires Enabled(setup, w, step) && i in w.instances && i in Apply(setup, w, step).instances
    ensures w.instances[i].pausedUntil <= Apply(setup, w, step).instances[i].pausedUntil
         || (step.Start? && i == w.nextId)
  {
  }

  lemma PauseStays(setup: Setup, w: World, step: Step, i: InstanceId, until: Time)
    requires Enabled(setup, w, step) && PausedOrGone(w, i, until)
    ensures PausedOrGone(Apply(setup, w, step), i, until)
  {
  }

  /** Once a pause is set no worker joins the stragglers: readings from before its end are refused. */
  lemma StragglersShrink(setup: Setup, w: World, step: Step, i: InstanceId, until: Time)
    requires Enabled(setup, w, step) && PausedOrGone(w, i, until)
    ensures Stragglers(Apply(setup, w, step), i, until) <= Stragglers(w, i, until)
    ensures StartsLate(w, step, i, until) ==>
      step.k in Stragglers(w, i, until) && step.k !in Stragglers(Apply(setup, w, step), i, until)
  {
    var w' := Apply(setup, w, step);
    forall k: nat | k in Stragglers(w', i, until) ensures k in Stragglers(w, i, until) {
      WorkersKeep(setup, w, step, i, k);
    }
  }

  lemma {:induction false} LateStartsAreStragglers(setup: Setup, w: World, steps: seq<Step>, i: InstanceId, until: Time)
    requires Possible(setup, w, steps) && PausedOrGone(w, i, until)
    ensures LateStarts(setup, w, steps, i, until) <= |Stragglers(w, i, until)|
    decreases |steps|
  {
    if steps != [] {
      var w' := Apply(setup, w, steps[0]);
      PauseStays(setup, w, steps[0], i, until);
      StragglersShrink(setup, w, steps[0], i, until);
      LateStartsAreStragglers(setup, w', steps[1..], i, until);
      if StartsLate(w, steps[0], i, until) {
        assert steps[0].k in Stragglers(w, i, until);
      }
      Shrinks(Stragglers(w', i, until), Stragglers(w, i, until));
    }
  }

  ghost function Below(n: nat): (s: set<nat>)
    ensures |s| == n && forall k: nat :: k in s <==> k < n
  {
    if n == 0 then {} else Below(n - 1) + {n - 1}
  }

  /** After a rate limit has set the pause, at most one request per other worker still starts
      on the strength of a clock reading from before the pause's end, on every run. */
  lemma PauseStopsRequests(setup: Setup, w: World, i: InstanceId, k: nat, steps: seq<Step>)
    requires Enabled(setup, w, ExtendPause(i, k)) && i < w.nextId
    requires Possible(setup, Apply(setup, w, ExtendPause(i, k)), steps)
    ensures var w' := Apply(setup, w, ExtendPause(i, k));
      var until := w'.instances[i].pausedUntil;
      && w.instances[i].pausedUntil <= until && w.instances[i].workers[k].until <= until
      && (until == w.instances[i].pausedUntil || until == w.instances[i].workers[k].until)
      && LateStarts(setup, w', steps, i, until) <= |w.instances[i].workers| - 1
  {
    var w' := Apply(setup, w, ExtendPause(i, k));
    var until := w'.instances[i].pausedUntil;
    LateStartsAreStragglers(setup, w', steps, i, until);
    assert k in Below(|w.instances[i].workers|) && k !in Stragglers(w', i, until);
    Shrinks(Stragglers(w', i, until), Below(|w.instances[i].workers|));
  }

  /** A pause does not always stop requests at once: one starts on the strength of an earlier
      reading in some run exactly if a worker had been admitted by such a reading and not
      yet started when the pause was set. */
  lemma PauseIsCompleteExactlyWithoutStragglers(setup: Setup, w: World, i: InstanceId, until: Time)
    requires PausedOrGone(w, i, until)
    ensures (forall steps: seq<Step> | Possible(setup, w, steps) :: LateStarts(setup, w, steps, i, until) == 0)
       <==> Stragglers(w, i, until) == {}
  {
    if k :| k in Stragglers(w, i, until) {
      OneLateStart(setup, w, i, until, k);
    } else {
      forall steps: seq<Step> | Possible(setup, w, steps) ensures LateStarts(setup, w, steps, i, until) == 0 {
        LateStartsAreStragglers(setup, w, steps, i, until);
      }
    }
  }

  lemma OneLateStart(setup: Setup, w: World, i: InstanceId, until: Time, k: nat)
    requires k in Stragglers(w, i, until)
    ensures Possible(setup, w, [StartFetch(i, k)]) && LateStarts(setup, w, [StartFetch(i, k)], i, until) == 1
  {
    var w' := Apply(setup, w, StartFetch(i, k));
    assert [StartFetch(i, k)][1..] == [];
    assert LateStarts(setup, w', [], i, until) == 0;
  }

  /** Such workers do occur: from every state there is a run at whose last step an instance is paused
      by a rate limit just after its other worker has been admitted. */
  lemma StragglerOccurs(setup: Setup, w: World, a: Number, b: Number, user: UserId, wait: Time)
    returns (before: seq<Step>, end: World)
    requires w.clock >= 0 && wait > 0 && ValidNumber(a) && ValidNumber(b)
    requires setup.hash(a) != setup.hash(b) && setup.hash(a) !in w.rows && setup.hash(b) !in w.rows
    ensures Leads(setup, w, before + [ExtendPause(w.nextId, 0)], end)
    ensures var until := end.clock + wait;
      && w.nextId in end.instances && end.instances[w.nextId].pausedUntil == until && w.nextId < end.nextId
      && Stragglers(end, w.nextId, until) == {1}
  {
    var i, now := w.nextId, w;
    before, now := OneAdmittedOneAsking(setup, w, a, b, user);
    before, now := Then(setup, w, before, now, Receive(i, 0, RateLimited(wait)));
    var steps;
    steps, end := Then(setup, w, before, now, ExtendPause(i, 0));
  }

  /** A new instance whose first worker is asking about one order and whose second worker has been
      admitted to ask about another. */
  lemma OneAdmittedOneAsking(setup: Setup, w: World, a: Number, b: Number, user: UserId)
    returns (steps: seq<Step>, end: World)
    requires w.clock >= 0 && ValidNumber(a) && ValidNumber(b)
    requires setup.hash(a) != setup.hash(b) && setup.hash(a) !in w.rows && setup.hash(b) !in w.rows
    ensures Leads(setup, w, steps, end) && end.clock == w.clock && end.nextId == w.nextId + 1
    ensures w.nextId in end.instances && end.instances[w.nextId].pausedUntil == 0
    ensures var lease := w.clock + setup.lease;
      end.instances[w.nextId].workers == [Fetching(Job(Fresh(a), lease)), Admitted(Job(Fresh(b), lease), w.clock)]
  {
    var i := w.nextId;
    steps, end := [], w;
    assert Leads(setup, w, steps, end);
    steps, end := Then(setup, w, steps, end, Start(2, 2));
    assert end.instances[i].workers == [Idle, Idle];
    var more, next := SubmitAndAdmit(setup, end, i, 0, a, user);
    Join(setup, w, steps, end, more, next);
    steps, end := Then(setup, w, steps + more, next, StartFetch(i, 0));
    assert end.instances[i].workers == [Fetching(Job(Fresh(a), w.clock + setup.lease)), Idle];
    more, next := SubmitAndAdmit(setup, end, i, 1, b, user);
    Join(setup, w, steps, end, more, next);
    steps, end := steps + more, next;
  }

  // ---------------------------------------------------------------- the other instances

  /** A worker is admitted by a reading from before `until` exactly if its own instance's pause is over. */
  lemma OwnPauseDecides(setup: Setup, w: World, j: InstanceId, k: nat, until: Time)
    requires Enabled(setup, w, CheckPause(j, k))
    ensures k in Stragglers(Apply(setup, w, CheckPause(j, k)), j, until)
       <==> w.instances[j].pausedUntil <= w.instances[j].workers[k].at < until
  {
  }

  /** A worker that has been admitted by a reading from before `until`, or will be. */
  predicate Early(pausedUntil: Time, work: Work, until: Time) {
    match work
    case Timed(_, at) => pausedUntil <= at < until
    case Admitted(_, at) => at < until
    case _ => false
  }

  /** The time `until` has come, and no worker of an instance other than `i` goes by an earlier one. */
  ghost predicate PassedElsewhere(w: World, i: InstanceId, until: Time) {
    && until <= w.clock
    && (forall j: InstanceId, k: nat | j != i && HasWorker(w, j, k) ::
          !Early(w.instances[j].pausedUntil, w.instances[j].workers[k], until))
  }

  lemma PassedElsewhereStays(setup: Setup, w: World, step: Step, i: InstanceId, until: Time)
    requires PassedElsewhere(w, i, until) && i < w.nextId && Enabled(setup, w, step)
    ensures PassedElsewhere(Apply(setup, w, step), i, until)
  {
    var w' := Apply(setup, w, step);
    HorizonGrows(setup, w, step);
    forall j: InstanceId, k: nat | j != i && HasWorker(w', j, k)
      ensures !Early(w'.instances[j].pausedUntil, w'.instances[j].workers[k], until) {
      WorkersKeep(setup, w, step, j, k);
      if HasWorker(w, j, k) && !w'.instances[j].workers[k].Idle? {
        assert !Early(w.instances[j].pausedUntil, w.instances[j].workers[k], until);
        PauseNeverShrinks(setup, w, step, j);
      }
    }
  }

  lemma {:induction false} NoLateStartsElsewhere(setup: Setup, w: World, steps: seq<Step>, i: InstanceId,
      j: InstanceId, until: Time)
    requires PassedElsewhere(w, i, until) && i < w.nextId && j != i && Possible(setup, w, steps)
    ensures LateStarts(setup, w, steps, j, until) == 0
    decreases |steps|
  {
    if steps != [] {
      PassedElsewhereStays(setup, w, steps[0], i, until);
      NoLateStartsElsewhere(setup, Apply(setup, w, steps[0]), steps[1..], i, j, until);
    }
  }

  lemma {:induction false} LateStartsAdd(setup: Setup, w: World, first: seq<Step>, mid: World, second: seq<Step>,
      i: InstanceId, until: Time)
    requires Leads(setup, w, first, mid) && Possible(setup, mid, second) && Possible(setup, w, first + second)
    ensures LateStarts(setup, w, first + second, i, until)
         == LateStarts(setup, w, first, i, until) + LateStarts(setup, mid, second, i, until)
    decreases |first|
  {
    if first == [] {
      assert first + second == second;
    } else {
      assert (first + second)[1..] == first[1..] + second;
      LateStartsAdd(setup, Apply(setup, w, first[0]), first[1..], mid, second, i, until);
    }
  }

  /** A straggler after some steps starts late after one more. */
  lemma LateStartAfter(setup: Setup, w: World, first: seq<Step>, mid: World, j: InstanceId, k: nat, until: Time)
    returns (steps: seq<Step>)
    requires Leads(setup, w, first, mid) && k in Stragglers(mid, j, until)
    ensures Possible(setup, w, steps) && LateStarts(setup, w, steps, j, until) > 0
  {
    steps := first + [StartFetch(j, k)];
    OneLateStart(setup, mid, j, until, k);
    Join(setup, w, first, mid, [StartFetch(j, k)], Apply(setup, mid, StartFetch(j, k)));
    LateStartsAdd(setup, w, first, mid, [StartFetch(j, k)], j, until);
  }

  /** As long as `until` has not come, another instance can start, claim a new order and ask about it. */
  lemma NewInstanceStartsLate(setup: Setup, w: World, number: Number, user: UserId, until: Time)
    returns (steps: seq<Step>)
    requires 0 <= w.clock < until && ValidNumber(number) && setup.hash(number) !in w.rows
    ensures Possible(setup, w, steps) && LateStarts(setup, w, steps, w.nextId, until) > 0
  {
    var first, mid := [], w;
    assert Leads(setup, w, first, mid);
    first, mid := Then(setup, w, first, mid, Start(1, 1));
    var more, next := SubmitAndAdmit(setup, mid, w.nextId, 0, number, user);
    Join(setup, w, first, mid, more, next);
    steps := LateStartAfter(setup, w, first + more, next, w.nextId, 0, until);
  }

  lemma EarlyWorkerStartsLate(setup: Setup, w: World, j: InstanceId, k: nat, until: Time) returns (steps: seq<Step>)
    requires HasWorker(w, j, k) && Early(w.instances[j].pausedUntil, w.instances[j].workers[k], until)
    ensures Possible(setup, w, steps) && LateStarts(setup, w, steps, j, until) > 0
  {
    var first, mid := [], w;
    assert Leads(setup, w, first, mid);
    if w.instances[j].workers[k].Timed? {
      OwnPauseDecides(setup, w, j, k, until);
      first, mid := Then(setup, w, first, mid, CheckPause(j, k));
    }
    steps := LateStartAfter(setup, w, first, mid, j, k, until);
  }

  /** A rate limit pauses the instance that met it and no other: the other instances start no request
      admitted before `until`, on any run, if and only if that time has already come and none of
      their workers goes by an earlier reading. The pause of `i` does not enter into it. */
  lemma OtherInstancesAreNotPaused(setup: Setup, w: World, i: InstanceId, until: Time, number: Number, user: UserId)
    requires 0 <= w.clock && i < w.nextId && ValidNumber(number) && setup.hash(number) !in w.rows
    ensures (forall steps: seq<Step>, j: InstanceId | Possible(setup, w, steps) && j != i ::
               LateStarts(setup, w, steps, j, until) == 0)
       <==> PassedElsewhere(w, i, until)
  {
    if PassedElsewhere(w, i, until) {
      forall steps: seq<Step>, j: InstanceId | Possible(setup, w, steps) && j != i
        ensures LateStarts(setup, w, steps, j, until) == 0 {
        NoLateStartsElsewhere(setup, w, steps, i, j, until);
      }
    } else if w.clock < until {
      var steps := NewInstanceStartsLate(setup, w, number, user, until);
    } else {
      var j, k: nat :| j != i && HasWorker(w, j, k)
          && Early(w.instances[j].pausedUntil, w.instances[j].workers[k], until);
      var steps := EarlyWorkerStartsLate(setup, w, j, k, until);
    }
  }

  /** Setting a pause leaves the other instances as they were, and while the pause lasts another
      instance can start a request. */
  lemma PauseIsNotShared(setup: Setup, w: World, i: InstanceId, k: nat, number: Number, user: UserId)
    returns (j: InstanceId, steps: seq<Step>)
    requires Enabled(setup, w, ExtendPause(i, k)) && 0 <= w.clock && i < w.nextId
    requires w.clock < w.instances[i].workers[k].until && ValidNumber(number) && setup.hash(number) !in w.rows
    ensures var w' := Apply(setup, w, ExtendPause(i, k));
      && (forall other | other != i && other in w.instances ::
            other in w'.instances && w'.instances[other] == w.instances[other])
      && j != i && Possible(setup, w', steps) && LateStarts(setup, w', steps, j, w'.instances[i].pausedUntil) > 0
  {
    var w' := Apply(setup, w, ExtendPause(i, k));
    j := w.nextId;
    steps := NewInstanceStartsLate(setup, w', number, user, w'.instances[i].pausedUntil);
  }

  /** Every instance has been given its number, as `PauseStopsRequests` requires. */
  lemma {:induction false} NumbersAreUsed(setup: Setup, w: World, steps: seq<Step>)
    requires Possible(setup, w, steps) && forall i | i in w.instances :: i < w.nextId
    ensures forall i | i in After(setup, w, steps).instances :: i < After(setup, w, steps).nextId
    decreases |steps|
  {
    if steps != [] {
      NumbersAreUsed(setup, Apply(setup, w, steps[0]), steps[1..]);
    }
  }
}
