/** The polling of pending orders: any number of service instances, each with a dispatcher,
    a bounded job queue, workers and a shared pause, over one table of orders. Each step is
    one clock reading, one statement, one critical section or one channel operation. */
module Polling {
  import opened Wrappers
  import opened OrderNumber
  import opened Accrual
  import opened Orders

  /** What all instances share: the digest function and the length of a lease. */
  datatype Setup = Setup(hash: Hash, lease: Time)

  /** A claimed order, and the end of the lease under which it was claimed. */
  datatype Job = Job(pending: Pending, lease: Time)

  /** A worker's progress with its job: the pause is checked against a clock reading taken
      before, and a rate limit's pause is computed from a reading taken before it is set. */
  datatype Work =
    | Idle
    | Holding(job: Job)
    | Timed(job: Job, at: Time)
    | Admitted(job: Job, at: Time)
    | Fetching(job: Job)
    | Limited(job: Job, until: Time)
    | Saving(job: Job, update: Update)

  /** The dispatcher's progress with a tick (no target) or a notification of an order. */
  datatype Dispatch =
    | Waiting
    | Read(at: Time, target: Option<Number>)
    | Ready(at: Time, target: Option<Number>, limit: nat)
    | Sending(jobs: seq<Job>)

  datatype Instance = Instance(capacity: nat, pausedUntil: Time, queue: seq<Job>, dispatch: Dispatch,
      workers: seq<Work>)

  type InstanceId = nat

  /** `longestPause` is the latest end of a pause ever set; `nextId` has not been used by an instance. */
  datatype World = World(clock: Time, rows: Rows, instances: map<InstanceId, Instance>, nextId: InstanceId,
      longestPause: Time)

  datatype Step =
    | Tick(elapsed: Time)
    | Submit(number: Number, user: UserId, at: Time)
    | Start(capacity: nat, workers: nat)
    | Stop(i: InstanceId)
    | ReadForDispatch(i: InstanceId, target: Option<Number>)
    | CheckDispatch(i: InstanceId)
    | ClaimDue(i: InstanceId, picked: seq<Digest>, locked: set<Digest>)
    | ClaimOne(i: InstanceId)
    | ClaimDueLost(i: InstanceId, picked: seq<Digest>, locked: set<Digest>)
    | ClaimOneLost(i: InstanceId)
    | ClaimFailed(i: InstanceId)
    | Send(i: InstanceId)
    | SendingDone(i: InstanceId)
    | Take(i: InstanceId, k: nat)
    | ReadClock(i: InstanceId, k: nat)
    | CheckPause(i: InstanceId, k: nat)
    | StartFetch(i: InstanceId, k: nat)
    | Receive(i: InstanceId, k: nat, response: Response)
    | ExtendPause(i: InstanceId, k: nat)
    | Save(i: InstanceId, k: nat)
    | Drop(i: InstanceId, k: nat)

  // ---------------------------------------------------------------- steps

  function Later(a: Time, b: Time): Time {
    if a < b then b else a
  }

  /** The pause after a rate limit asks for one until `until`. */
  function ExtendedPause(pausedUntil: Time, until: Time): Time {
    Later(pausedUntil, until)
  }

  predicate HasWorker(w: World, i: InstanceId, k: nat) {
    i in w.instances && k < |w.instances[i].workers|
  }

  predicate OneDue(setup: Setup, w: World, number: Number, at: Time) {
    var d := setup.hash(number);
    d in w.rows && w.rows[d].number == number && Due(w.rows[d], at)
  }

  ghost predicate Enabled(setup: Setup, w: World, step: Step) {
    match step
    case Tick(elapsed) => elapsed >= 0
    case Submit(number, user, at) => ValidNumber(number) && at <= w.clock
    case Start(capacity, workers) => capacity > 0 && workers > 0
    case Stop(i) => i in w.instances
    case ReadForDispatch(i, target) => i in w.instances && w.instances[i].dispatch.Waiting?
    case CheckDispatch(i) => i in w.instances && w.instances[i].dispatch.Read?
    case ClaimDue(i, picked, locked) => CanClaimDue(w, i, picked, locked)
    case ClaimDueLost(i, picked, locked) => CanClaimDue(w, i, picked, locked)
    case ClaimOne(i) => i in w.instances && w.instances[i].dispatch.Ready? && w.instances[i].dispatch.target.Some?
    case ClaimOneLost(i) => i in w.instances && w.instances[i].dispatch.Ready? && w.instances[i].dispatch.target.Some?
    case ClaimFailed(i) => i in w.instances && w.instances[i].dispatch.Ready?
    case Send(i) => i in w.instances && w.instances[i].dispatch.Sending? && w.instances[i].dispatch.jobs != []
                    && |w.instances[i].queue| < w.instances[i].capacity
    case SendingDone(i) => i in w.instances && w.instances[i].dispatch == Sending([])
    case Take(i, k) => HasWorker(w, i, k) && w.instances[i].workers[k].Idle? && w.instances[i].queue != []
    case ReadClock(i, k) => HasWorker(w, i, k) && w.instances[i].workers[k].Holding?
    case CheckPause(i, k) => HasWorker(w, i, k) && w.instances[i].workers[k].Timed?
    case StartFetch(i, k) => HasWorker(w, i, k) && w.instances[i].workers[k].Admitted?
    case Receive(i, k, response) => HasWorker(w, i, k) && w.instances[i].workers[k].Fetching? && ValidResponse(response)
    case ExtendPause(i, k) => HasWorker(w, i, k) && w.instances[i].workers[k].Limited?
    case Save(i, k) => HasWorker(w, i, k) && w.instances[i].workers[k].Saving?
    case Drop(i, k) => HasWorker(w, i, k) && !w.instances[i].workers[k].Idle?
  }

  ghost predicate CanClaimDue(w: World, i: InstanceId, picked: seq<Digest>, locked: set<Digest>) {
    && i in w.instances && w.instances[i].dispatch.Ready? && w.instances[i].dispatch.target.None?
    && Picked(w.rows, w.instances[i].dispatch.at, w.instances[i].dispatch.limit, locked, picked)
  }

  function With(w: World, i: InstanceId, instance: Instance): World {
    w.(instances := w.instances[i := instance])
  }

  function WithDispatch(w: World, i: InstanceId, dispatch: Dispatch): World
    requires i in w.instances
  {
    With(w, i, w.instances[i].(dispatch := dispatch))
  }

  function WithWork(w: World, i: InstanceId, k: nat, work: Work): World
    requires HasWorker(w, i, k)
  {
    With(w, i, w.instances[i].(workers := w.instances[i].workers[k := work]))
  }

  function JobsOf(rows: Rows, picked: seq<Digest>, lease: Time): (jobs: seq<Job>)
    requires forall n | 0 <= n < |picked| :: picked[n] in rows
    ensures |jobs| == |picked| && forall n | 0 <= n < |jobs| :: jobs[n] == Job(PendingOf(rows[picked[n]]), lease)
  {
    seq(|picked|, n requires 0 <= n < |picked| => Job(PendingOf(rows[picked[n]]), lease))
  }

  /** After the pause and the free slots have been checked. */
  function Checked(instance: Instance): Dispatch
    requires instance.dispatch.Read?
  {
    var at, target := instance.dispatch.at, instance.dispatch.target;
    if at < instance.pausedUntil || |instance.queue| >= instance.capacity then Waiting
    else Ready(at, target, if target.Some? then 1 else instance.capacity - |instance.queue|)
  }

  ghost function Apply(setup: Setup, w: World, step: Step): World
    requires Enabled(setup, w, step)
  {
    match step
    case Tick(elapsed) => w.(clock := w.clock + elapsed)
    case Submit(number, user, at) => w.(rows := Inserted(w.rows, setup.hash(number), NewRow(number, user, at)))
    case Start(capacity, workers) =>
      With(w, w.nextId, Instance(capacity, 0, [], Waiting, seq(workers, k => Idle))).(nextId := w.nextId + 1)
    case Stop(i) => w.(instances := w.instances - {i})
    case ReadForDispatch(i, target) => WithDispatch(w, i, Read(w.clock, target))
    case CheckDispatch(i) => WithDispatch(w, i, Checked(w.instances[i]))
    case ClaimDue(i, picked, _) =>
      var lease := w.instances[i].dispatch.at + setup.lease;
      WithDispatch(w, i, Sending(JobsOf(w.rows, picked, lease))).(rows := Leased(w.rows, picked, lease))
    case ClaimDueLost(i, picked, _) =>
      WithDispatch(w, i, Waiting).(rows := Leased(w.rows, picked, w.instances[i].dispatch.at + setup.lease))
    case ClaimOne(i) =>
      var number, lease := w.instances[i].dispatch.target.value, w.instances[i].dispatch.at + setup.lease;
      if OneDue(setup, w, number, w.instances[i].dispatch.at) then
        var picked := [setup.hash(number)];
        WithDispatch(w, i, Sending(JobsOf(w.rows, picked, lease))).(rows := Leased(w.rows, picked, lease))
      else WithDispatch(w, i, Waiting)
    case ClaimOneLost(i) =>
      var number, lease := w.instances[i].dispatch.target.value, w.instances[i].dispatch.at + setup.lease;
      if OneDue(setup, w, number, w.instances[i].dispatch.at) then
        WithDispatch(w, i, Waiting).(rows := Leased(w.rows, [setup.hash(number)], lease))
      else WithDispatch(w, i, Waiting)
    case ClaimFailed(i) => WithDispatch(w, i, Waiting)
    case Send(i) =>
      var instance := w.instances[i];
      With(w, i, instance.(queue := instance.queue + [instance.dispatch.jobs[0]],
                           dispatch := Sending(instance.dispatch.jobs[1..])))
    case SendingDone(i) => WithDispatch(w, i, Waiting)
    case Take(i, k) =>
      var instance := w.instances[i];
      With(w, i, instance.(queue := instance.queue[1..], workers := instance.workers[k := Holding(instance.queue[0])]))
    case ReadClock(i, k) => WithWork(w, i, k, Timed(w.instances[i].workers[k].job, w.clock))
    case CheckPause(i, k) =>
      var job, at, until := w.instances[i].workers[k].job, w.instances[i].workers[k].at, w.instances[i].pausedUntil;
      WithWork(w, i, k, if at < until then Saving(job, Postpone(job.pending, until)) else Admitted(job, at))
    case StartFetch(i, k) => WithWork(w, i, k, Fetching(w.instances[i].workers[k].job))
    case Receive(i, k, response) =>
      var job := w.instances[i].workers[k].job;
      WithWork(w, i, k, if response.RateLimited? then Limited(job, w.clock + Later(response.retryAfter, 0))
                        else Saving(job, Respond(job.pending, response, w.clock, 0)))
    case ExtendPause(i, k) =>
      var instance := w.instances[i];
      var job := instance.workers[k].job;
      var until := ExtendedPause(instance.pausedUntil, instance.workers[k].until);
      With(w, i, instance.(pausedUntil := until,
                           workers := instance.workers[k := Saving(job, Postpone(job.pending, until))]))
        .(longestPause := Later(w.longestPause, until))
    case Save(i, k) =>
      WithWork(w, i, k, Idle).(rows := Saved(w.rows, setup.hash, w.instances[i].workers[k].update))
    case Drop(i, k) => WithWork(w, i, k, Idle)
  }

  ghost predicate Possible(setup: Setup, w: World, steps: seq<Step>)
    decreases |steps|
  {
    steps == [] || (Enabled(setup, w, steps[0]) && Possible(setup, Apply(setup, w, steps[0]), steps[1..]))
  }

  ghost function After(setup: Setup, w: World, steps: seq<Step>): World
    requires Possible(setup, w, steps)
    decreases |steps|
  {
    if steps == [] then w else After(setup, Apply(setup, w, steps[0]), steps[1..])
  }

  // ---------------------------------------------------------------- where jobs are

  datatype Slot = InQueue(i: InstanceId, n: nat) | InHand(i: InstanceId, n: nat) | AtWorker(i: InstanceId, k: nat)

  /** The live job at a slot, if there is one. */
  function JobAt(w: World, slot: Slot): Option<Job> {
    if slot.i !in w.instances then None
    else
      var instance := w.instances[slot.i];
      match slot
      case InQueue(_, n) => if n < |instance.queue| then Some(instance.queue[n]) else None
      case InHand(_, n) =>
        if instance.dispatch.Sending? && n < |instance.dispatch.jobs| then Some(instance.dispatch.jobs[n]) else None
      case AtWorker(_, k) =>
        if k < |instance.workers| && !instance.workers[k].Idle? then Some(instance.workers[k].job) else None
  }

  predicate Live(w: World, slot: Slot) {
    JobAt(w, slot).Some?
  }

  /** Where the job that is at `slot` after a step was before it. */
  function Source(w: World, step: Step, slot: Slot): Slot
    requires step.Send? ==> step.i in w.instances
  {
    match step
    case Send(i) =>
      if slot.i != i then slot
      else if slot.InQueue? && slot.n == |w.instances[i].queue| then InHand(i, 0)
      else if slot.InHand? then InHand(i, slot.n + 1)
      else slot
    case Take(i, k) =>
      if slot == AtWorker(i, k) then InQueue(i, 0)
      else if slot.InQueue? && slot.i == i then InQueue(i, slot.n + 1)
      else slot
    case _ => slot
  }

  /** Whether the step claims the job at `slot`. */
  predicate JustClaimed(step: Step, slot: Slot) {
    (step.ClaimDue? || step.ClaimOne?) && slot.InHand? && slot.i == step.i
  }

  lemma JobsMove(setup: Setup, w: World, step: Step, slot: Slot)
    requires Enabled(setup, w, step) && Live(Apply(setup, w, step), slot) && !JustClaimed(step, slot)
    ensures JobAt(w, Source(w, step, slot)) == JobAt(Apply(setup, w, step), slot)
  {
    if step.Send? {
      SentJobsMove(setup, w, step.i, slot);
    } else if step.Take? {
      TakenJobsMove(setup, w, step.i, step.k, slot);
    } else {
      JobsStay(setup, w, step, slot);
    }
  }

  lemma SentJobsMove(setup: Setup, w: World, i: InstanceId, slot: Slot)
    requires Enabled(setup, w, Send(i)) && Live(Apply(setup, w, Send(i)), slot)
    ensures JobAt(w, Source(w, Send(i), slot)) == JobAt(Apply(setup, w, Send(i)), slot)
  {
  }

  lemma TakenJobsMove(setup: Setup, w: World, i: InstanceId, k: nat, slot: Slot)
    requires Enabled(setup, w, Take(i, k)) && Live(Apply(setup, w, Take(i, k)), slot)
    ensures JobAt(w, Source(w, Take(i, k), slot)) == JobAt(Apply(setup, w, Take(i, k)), slot)
  {
  }

  lemma JobsStay(setup: Setup, w: World, step: Step, slot: Slot)
    requires Enabled(setup, w, step) && Live(Apply(setup, w, step), slot) && !JustClaimed(step, slot)
    requires !step.Send? && !step.Take?
    ensures JobAt(w, slot) == JobAt(Apply(setup, w, step), slot)
  {
  }

  lemma SourcesDiffer(w: World, step: Step, a: Slot, b: Slot)
    requires (step.Send? ==> step.i in w.instances) && a != b
    ensures Source(w, step, a) != Source(w, step, b)
  {
  }
}
