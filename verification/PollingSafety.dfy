/** What every run of the polling protocol keeps, with no assumption on how long jobs take:
    valid rows, jobs and updates; rows that only advance; bounded queues; bounded delays. */
module PollingSafety {
  import opened Wrappers
  import opened OrderNumber
  import opened Accrual
  import opened Orders
  import opened Polling

  // ---------------------------------------------------------------- one worker at a time

  predicate Touches(step: Step, i: InstanceId, k: nat) {
    match step
    case Take(j, l) => j == i && l == k
    case ReadClock(j, l) => j == i && l == k
    case CheckPause(j, l) => j == i && l == k
    case StartFetch(j, l) => j == i && l == k
    case Receive(j, l, _) => j == i && l == k
    case ExtendPause(j, l) => j == i && l == k
    case Save(j, l) => j == i && l == k
    case Drop(j, l) => j == i && l == k
    case _ => false
  }

  /** A step changes the work of the worker it names only; new workers are idle. */
  lemma WorkersKeep(setup: Setup, w: World, step: Step, i: InstanceId, k: nat)
    requires Enabled(setup, w, step) && HasWorker(Apply(setup, w, step), i, k)
    ensures HasWorker(w, i, k) || Apply(setup, w, step).instances[i].workers[k].Idle?
    ensures HasWorker(w, i, k) && !Touches(step, i, k) && !(step.Start? && i == w.nextId)
        ==> Apply(setup, w, step).instances[i].workers[k] == w.instances[i].workers[k]
    ensures Touches(step, i, k) ==> HasWorker(w, i, k)
    ensures step.Start? && i == w.nextId ==> Apply(setup, w, step).instances[i].workers[k].Idle?
  {
  }

  predicate Dispatches(step: Step, i: InstanceId) {
    match step
    case ReadForDispatch(j, _) => j == i
    case CheckDispatch(j) => j == i
    case ClaimDue(j, _, _) => j == i
    case ClaimOne(j) => j == i
    case ClaimDueLost(j, _, _) => j == i
    case ClaimOneLost(j) => j == i
    case ClaimFailed(j) => j == i
    case Send(j) => j == i
    case SendingDone(j) => j == i
    case _ => false
  }

  /** Workers leave the dispatcher alone and only ever drain the queue. */
  lemma DispatcherKeeps(setup: Setup, w: World, step: Step, i: InstanceId)
    requires Enabled(setup, w, step) && i in Apply(setup, w, step).instances && !Dispatches(step, i)
    ensures var instance := Apply(setup, w, step).instances[i];
      if step.Start? && i == w.nextId then instance.queue == [] && instance.dispatch.Waiting?
      else
        && i in w.instances && instance.capacity == w.instances[i].capacity
        && instance.dispatch == w.instances[i].dispatch && |instance.queue| <= |w.instances[i].queue|
  {
  }

  // ---------------------------------------------------------------- the surroundings

  /** Time passes, orders come, instances start and stop, and ticks and notifications come, at any time. */
  lemma SurroundingsAreFree(setup: Setup, w: World, elapsed: Time, number: Number, user: UserId, at: Time,
                            capacity: nat, workers: nat, i: InstanceId, target: Option<Number>)
    ensures elapsed >= 0 ==>
      Enabled(setup, w, Tick(elapsed)) && Apply(setup, w, Tick(elapsed)) == w.(clock := w.clock + elapsed)
    ensures ValidNumber(number) && at <= w.clock ==> Enabled(setup, w, Submit(number, user, at))
    ensures capacity > 0 && workers > 0 ==>
      && Enabled(setup, w, Start(capacity, workers))
      && var end := Apply(setup, w, Start(capacity, workers));
         && end.instances.Keys == w.instances.Keys + {w.nextId} && end.nextId == w.nextId + 1
         && end.instances[w.nextId] == Instance(capacity, 0, [], Waiting, seq(workers, k => Idle))
         && end.rows == w.rows && end.clock == w.clock
    ensures i in w.instances ==>
      && Enabled(setup, w, Stop(i))
      && var end := Apply(setup, w, Stop(i));
         end == w.(instances := end.instances) && end.instances.Keys == w.instances.Keys - {i}
    ensures i in w.instances && w.instances[i].dispatch == Waiting ==> Enabled(setup, w, ReadForDispatch(i, target))
  {
  }

  /** Claims fail with or without having taken effect. */
  lemma ClaimsMayFail(setup: Setup, w: World, i: InstanceId, picked: seq<Digest>, locked: set<Digest>)
    requires i in w.instances && w.instances[i].dispatch.Ready?
    ensures Enabled(setup, w, ClaimFailed(i))
    ensures var end := Apply(setup, w, ClaimFailed(i));
      end.rows == w.rows && end.instances[i] == w.instances[i].(dispatch := Waiting)
    ensures w.instances[i].dispatch.target.Some? ==>
      Enabled(setup, w, ClaimOne(i)) && Enabled(setup, w, ClaimOneLost(i))
    ensures w.instances[i].dispatch.target.None?
            && Picked(w.rows, w.instances[i].dispatch.at, w.instances[i].dispatch.limit, locked, picked) ==>
      Enabled(setup, w, ClaimDue(i, picked, locked)) && Enabled(setup, w, ClaimDueLost(i, picked, locked))
  {
  }

  /** Jobs are dropped at any point, which leaves the table alone, and any response comes back. */
  lemma JobsMayFail(setup: Setup, w: World, i: InstanceId, k: nat, response: Response)
    ensures i in w.instances && k < |w.instances[i].workers| && !w.instances[i].workers[k].Idle? ==>
      && Enabled(setup, w, Drop(i, k))
      && Apply(setup, w, Drop(i, k)).instances[i].workers == w.instances[i].workers[k := Idle]
      && Apply(setup, w, Drop(i, k)).rows == w.rows
    ensures i in w.instances && k < |w.instances[i].workers| && w.instances[i].workers[k].Fetching? ==>
      && Enabled(setup, w, Receive(i, k, FetchFailed))
      && (response.RateLimited? && response.retryAfter >= 0 ==> Enabled(setup, w, Receive(i, k, response)))
      && (response.Answer? && response.result.accrual.None? ==> Enabled(setup, w, Receive(i, k, response)))
      && (response.Answer? && response.result.accrual.Some?
          && 0 <= response.result.accrual.value < 100_000_000_000_000_000_000 ==>
            Enabled(setup, w, Receive(i, k, response)))
  {
  }

  // ---------------------------------------------------------------- validity

  /** What a worker is about to save for a job. */
  predicate ValidWork(work: Work) {
    work.Saving? ==>
      && ValidUpdate(work.update) && work.update.number == work.job.pending.number
      && Rank(work.job.pending.status) <= Rank(work.update.status)
  }

  ghost predicate ValidWorld(setup: Setup, w: World) {
    && ValidRows(w.rows, setup.hash)
    && (forall slot | Live(w, slot) :: ValidPending(JobAt(w, slot).value.pending))
    && (forall i: InstanceId, k: nat | HasWorker(w, i, k) :: ValidWork(w.instances[i].workers[k]))
  }

  lemma EmptyIsValid(setup: Setup, clock: Time)
    ensures ValidWorld(setup, World(clock, map[], map[], 0, 0))
  {
  }

  lemma RowsStayValid(setup: Setup, w: World, step: Step)
    requires ValidWorld(setup, w) && Enabled(setup, w, step)
    ensures ValidRows(Apply(setup, w, step).rows, setup.hash)
  {
    if step.Save? {
      SaveKeepsValid(w.rows, setup.hash, w.instances[step.i].workers[step.k].update);
    }
  }

  lemma JobsStayValid(setup: Setup, w: World, step: Step, slot: Slot)
    requires ValidWorld(setup, w) && Enabled(setup, w, step) && Live(Apply(setup, w, step), slot)
    ensures ValidPending(JobAt(Apply(setup, w, step), slot).value.pending)
  {
    if JustClaimed(step, slot) {
      ClaimedJob(setup, w, step, slot);
    } else {
      JobsMove(setup, w, step, slot);
    }
  }

  /** A job just claimed is a copy of a row that was due and is now leased to it. */
  lemma ClaimedJob(setup: Setup, w: World, step: Step, slot: Slot)
    requires Enabled(setup, w, step) && Live(Apply(setup, w, step), slot) && JustClaimed(step, slot)
    ensures var d := ClaimedDigest(setup, w, step, slot);
      && d in w.rows && Due(w.rows[d], w.instances[step.i].dispatch.at)
      && JobAt(Apply(setup, w, step), slot)
            == Some(Job(PendingOf(w.rows[d]), w.instances[step.i].dispatch.at + setup.lease))
      && Apply(setup, w, step).rows[d] == w.rows[d].(nextCheckAt := w.instances[step.i].dispatch.at + setup.lease)
  {
  }

  function ClaimedDigest(setup: Setup, w: World, step: Step, slot: Slot): Digest
    requires JustClaimed(step, slot) && step.i in w.instances
  {
    match step
    case ClaimDue(_, picked, _) => if slot.n < |picked| then picked[slot.n] else 0
    case ClaimOne(i) =>
      var dispatch := w.instances[i].dispatch;
      if dispatch.Ready? && dispatch.target.Some? then setup.hash(dispatch.target.value) else 0
  }

  lemma WorkStaysValid(setup: Setup, w: World, step: Step, i: InstanceId, k: nat)
    requires ValidWorld(setup, w) && Enabled(setup, w, step) && HasWorker(Apply(setup, w, step), i, k)
    ensures ValidWork(Apply(setup, w, step).instances[i].workers[k])
  {
    WorkersKeep(setup, w, step, i, k);
    if Touches(step, i, k) {
      var work := w.instances[i].workers[k];
      if step.Receive? {
        assert Live(w, AtWorker(i, k));
        RespondKeepsValidity(work.job.pending, step.response, w.clock, 0);
      } else if step.CheckPause? || step.ExtendPause? {
        assert Live(w, AtWorker(i, k));
      }
    }
  }

  lemma ValidityPreserved(setup: Setup, w: World, step: Step)
    requires ValidWorld(setup, w) && Enabled(setup, w, step)
    ensures ValidWorld(setup, Apply(setup, w, step))
  {
    RowsStayValid(setup, w, step);
    forall slot | Live(Apply(setup, w, step), slot)
      ensures ValidPending(JobAt(Apply(setup, w, step), slot).value.pending) {
      JobsStayValid(setup, w, step, slot);
    }
    forall i: InstanceId, k: nat | HasWorker(Apply(setup, w, step), i, k)
      ensures ValidWork(Apply(setup, w, step).instances[i].workers[k]) {
      WorkStaysValid(setup, w, step, i, k);
    }
  }

  /** On every run no update ever fails validation when it is saved. */
  lemma {:induction false} SavesNeverFailValidation(setup: Setup, w: World, steps: seq<Step>)
    requires ValidWorld(setup, w) && Possible(setup, w, steps)
    ensures ValidWorld(setup, After(setup, w, steps))
    ensures forall i: InstanceId, k: nat | HasWorker(After(setup, w, steps), i, k)
        && After(setup, w, steps).instances[i].workers[k].Saving? ::
              ValidateUpdate(After(setup, w, steps).instances[i].workers[k].update).Success?
    decreases |steps|
  {
    if steps != [] {
      ValidityPreserved(setup, w, steps[0]);
      SavesNeverFailValidation(setup, Apply(setup, w, steps[0]), steps[1..]);
    }
  }

  // ---------------------------------------------------------------- forward only, credited at most once

  lemma StepAdvancesRows(setup: Setup, w: World, step: Step)
    requires Enabled(setup, w, step)
    ensures RowsAdvance(w.rows, Apply(setup, w, step).rows)
  {
    match step
    case Submit(number, user, at) => InsertAdvances(w.rows, setup.hash(number), NewRow(number, user, at));
    case ClaimDue(i, picked, locked) =>
      var dispatch := w.instances[i].dispatch;
      LeaseAdvances(w.rows, dispatch.at, dispatch.limit, locked, picked, dispatch.at + setup.lease);
    case ClaimDueLost(i, picked, locked) =>
      var dispatch := w.instances[i].dispatch;
      LeaseAdvances(w.rows, dispatch.at, dispatch.limit, locked, picked, dispatch.at + setup.lease);
    case Save(i, k) => SaveAdvances(w.rows, setup.hash, w.instances[i].workers[k].update);
    case _ =>
  }

  /** However stale or duplicated the jobs: each order keeps its owner and upload time, moves
      forward only, stays as it is once closed, and no user's accrued total ever shrinks. */
  lemma {:induction false} OrdersOnlyAdvance(setup: Setup, w: World, steps: seq<Step>, user: UserId)
    requires ValidWorld(setup, w) && Possible(setup, w, steps)
    ensures RowsAdvance(w.rows, After(setup, w, steps).rows)
    ensures Accrued(w.rows, user) <= Accrued(After(setup, w, steps).rows, user)
    decreases |steps|
  {
    if steps != [] {
      var w' := Apply(setup, w, steps[0]);
      ValidityPreserved(setup, w, steps[0]);
      StepAdvancesRows(setup, w, steps[0]);
      AccruedGrows(w.rows, w'.rows, user);
      OrdersOnlyAdvance(setup, w', steps[1..], user);
      AdvancesTransitively(w.rows, w'.rows, After(setup, w, steps).rows);
    }
  }

  /** What a step credits to a user: the accrual of a save that closes one of the user's open orders. */
  function CreditedBy(setup: Setup, w: World, step: Step, user: UserId): int {
    if !step.Save? || !HasWorker(w, step.i, step.k) || !w.instances[step.i].workers[step.k].Saving? then 0
    else
      var u := w.instances[step.i].workers[step.k].update;
      var d := setup.hash(u.number);
      if && d in w.rows && w.rows[d].number == u.number && w.rows[d].user == user
         && (w.rows[d].status == New || w.rows[d].status == Processing)
         && u.status == Processed && u.accrual.Some?
      then u.accrual.value else 0
  }

  ghost function Credited(setup: Setup, w: World, steps: seq<Step>, user: UserId): int
    requires Possible(setup, w, steps)
    decreases |steps|
  {
    if steps == [] then 0
    else CreditedBy(setup, w, steps[0], user) + Credited(setup, Apply(setup, w, steps[0]), steps[1..], user)
  }

  lemma StepCredits(setup: Setup, w: World, step: Step, user: UserId)
    requires ValidWorld(setup, w) && Enabled(setup, w, step)
    ensures Accrued(Apply(setup, w, step).rows, user) == Accrued(w.rows, user) + CreditedBy(setup, w, step, user)
  {
    if step.Submit? {
      InsertCredits(w.rows, setup.hash(step.number), step.number, step.at, step.user, user);
    } else if step.Save? {
      assert ValidWork(w.instances[step.i].workers[step.k]);
      SaveCredits(w.rows, setup.hash, w.instances[step.i].workers[step.k].update, user);
    } else {
      var picked, until := OthersLease(setup, w, step);
      LeaseCredits(w.rows, picked, until, user);
    }
  }

  /** All other steps lease some rows, or none. */
  lemma OthersLease(setup: Setup, w: World, step: Step) returns (picked: seq<Digest>, until: Time)
    requires Enabled(setup, w, step) && !step.Submit? && !step.Save?
    ensures Apply(setup, w, step).rows == Leased(w.rows, picked, until)
  {
    picked, until := [], 0;
    assert Leased(w.rows, [], 0) == w.rows;
    match step
    case ClaimDue(i, chosen, _) => picked, until := chosen, w.instances[i].dispatch.at + setup.lease;
    case ClaimDueLost(i, chosen, _) => picked, until := chosen, w.instances[i].dispatch.at + setup.lease;
    case ClaimOne(i) => picked, until := NotifiedLeases(setup, w, i);
    case ClaimOneLost(i) => picked, until := NotifiedLeases(setup, w, i);
    case _ =>
  }

  lemma NotifiedLeases(setup: Setup, w: World, i: InstanceId) returns (picked: seq<Digest>, until: Time)
    requires Enabled(setup, w, ClaimOne(i))
    ensures Apply(setup, w, ClaimOne(i)).rows == Leased(w.rows, picked, until)
    ensures Apply(setup, w, ClaimOneLost(i)).rows == Leased(w.rows, picked, until)
  {
    var number, at := w.instances[i].dispatch.target.value, w.instances[i].dispatch.at;
    assert Leased(w.rows, [], 0) == w.rows;
    if OneDue(setup, w, number, at) {
      return [setup.hash(number)], at + setup.lease;
    }
    return [], 0;
  }

  /** A user's accrued total changes on a run by exactly what the saves of the run have credited. */
  lemma {:induction false} AccruedIsWhatWasCredited(setup: Setup, w: World, steps: seq<Step>, user: UserId)
    requires ValidWorld(setup, w) && Possible(setup, w, steps)
    ensures Accrued(After(setup, w, steps).rows, user) == Accrued(w.rows, user) + Credited(setup, w, steps, user)
    decreases |steps|
  {
    if steps != [] {
      ValidityPreserved(setup, w, steps[0]);
      StepCredits(setup, w, steps[0], user);
      AccruedIsWhatWasCredited(setup, Apply(setup, w, steps[0]), steps[1..], user);
    }
  }

  /** The steps at which the order under `d` passes from open to credited. */
  ghost function Credits(setup: Setup, w: World, steps: seq<Step>, d: Digest): nat
    requires Possible(setup, w, steps)
    decreases |steps|
  {
    if steps == [] then 0
    else
      var w' := Apply(setup, w, steps[0]);
      (if d in w'.rows && w'.rows[d].accrual.Some? && (d in w.rows ==> w.rows[d] != w'.rows[d]) then 1 else 0)
      + Credits(setup, w', steps[1..], d)
  }

  /** An order is credited at most once on any run, and never after it has been closed. */
  lemma {:induction false} CreditedAtMostOnce(setup: Setup, w: World, steps: seq<Step>, d: Digest)
    requires ValidWorld(setup, w) && Possible(setup, w, steps)
    ensures Credits(setup, w, steps, d) <= if d in w.rows && !Open(w.rows[d].status) then 0 else 1
    decreases |steps|
  {
    if steps != [] {
      var w' := Apply(setup, w, steps[0]);
      ValidityPreserved(setup, w, steps[0]);
      StepAdvancesRows(setup, w, steps[0]);
      CreditedAtMostOnce(setup, w', steps[1..], d);
    }
  }

  // ---------------------------------------------------------------- where credits come from

  /** The accruals the accrual system has reported at a step: for the order asked about only. */
  function Reports(w: World, step: Step): set<(Number, int)> {
    if step.Receive? && HasWorker(w, step.i, step.k) && w.instances[step.i].workers[step.k].Fetching?
       && step.response.Answer? && step.response.result.registered && step.response.result.status.CheckProcessed?
       && step.response.result.accrual.Some?
    then {(w.instances[step.i].workers[step.k].job.pending.number, step.response.result.accrual.value)}
    else {}
  }

  ghost function AllReports(setup: Setup, w: World, steps: seq<Step>): set<(Number, int)>
    requires Possible(setup, w, steps)
    decreases |steps|
  {
    if steps == [] then {} else Reports(w, steps[0]) + AllReports(setup, Apply(setup, w, steps[0]), steps[1..])
  }

  predicate WorkBacked(work: Work, known: set<(Number, int)>) {
    work.Saving? && work.update.accrual.Some? ==> (work.update.number, work.update.accrual.value) in known
  }

  /** Every accrual stored, or about to be, has been reported for that very order. */
  ghost predicate Backed(w: World, known: set<(Number, int)>) {
    && (forall d | d in w.rows && w.rows[d].accrual.Some? :: (w.rows[d].number, w.rows[d].accrual.value) in known)
    && (forall i: InstanceId, k: nat | HasWorker(w, i, k) :: WorkBacked(w.instances[i].workers[k], known))
  }

  lemma RowsStayBacked(setup: Setup, w: World, step: Step, known: set<(Number, int)>, d: Digest)
    requires Backed(w, known) && Enabled(setup, w, step)
    requires d in Apply(setup, w, step).rows && Apply(setup, w, step).rows[d].accrual.Some?
    ensures var row := Apply(setup, w, step).rows[d]; (row.number, row.accrual.value) in known
  {
    if step.Save? {
      assert WorkBacked(w.instances[step.i].workers[step.k], known);
    }
  }

  lemma WorkStaysBacked(setup: Setup, w: World, step: Step, known: set<(Number, int)>, i: InstanceId, k: nat)
    requires Backed(w, known) && Enabled(setup, w, step) && HasWorker(Apply(setup, w, step), i, k)
    ensures WorkBacked(Apply(setup, w, step).instances[i].workers[k], known + Reports(w, step))
  {
    WorkersKeep(setup, w, step, i, k);
    if Touches(step, i, k) && step.Receive? {
      ResponseDecidesStatus(w.instances[i].workers[k].job.pending, step.response, w.clock, 0);
    }
  }

  /** An order is only ever credited with an accrual that the accrual system reported for it. */
  lemma {:induction false} CreditsWereReported(setup: Setup, w: World, steps: seq<Step>, known: set<(Number, int)>)
    requires Backed(w, known) && Possible(setup, w, steps)
    ensures Backed(After(setup, w, steps), known + AllReports(setup, w, steps))
    decreases |steps|
  {
    if steps == [] {
      assert known + {} == known;
    } else {
      var w', more := Apply(setup, w, steps[0]), known + Reports(w, steps[0]);
      forall d | d in w'.rows && w'.rows[d].accrual.Some?
          ensures (w'.rows[d].number, w'.rows[d].accrual.value) in more {
        RowsStayBacked(setup, w, steps[0], known, d);
      }
      forall i: InstanceId, k: nat | HasWorker(w', i, k) ensures WorkBacked(w'.instances[i].workers[k], more) {
        WorkStaysBacked(setup, w, steps[0], known, i, k);
      }
      CreditsWereReported(setup, w', steps[1..], more);
      assert more + AllReports(setup, w', steps[1..]) == known + AllReports(setup, w, steps);
    }
  }

  // ---------------------------------------------------------------- the job queue

  /** The slots the dispatcher has claimed for, or may still claim for, fit the queue. */
  predicate QueueFits(instance: Instance) {
    && (instance.dispatch.Ready? ==> instance.dispatch.limit > 0)
    && |instance.queue| + (match instance.dispatch
                        case Ready(_, _, limit) => limit
                        case Sending(jobs) => |jobs|
                        case _ => 0) <= instance.capacity
  }

  predicate QueuesFit(w: World) {
    forall i | i in w.instances :: QueueFits(w.instances[i])
  }

  lemma QueueFitsPreserved(setup: Setup, w: World, step: Step, i: InstanceId)
    requires QueuesFit(w) && Enabled(setup, w, step) && i in Apply(setup, w, step).instances
    ensures QueueFits(Apply(setup, w, step).instances[i])
  {
    if Dispatches(step, i) {
      assert QueueFits(w.instances[i]);
    } else {
      DispatcherKeeps(setup, w, step, i);
    }
  }

  lemma QueuesFitPreserved(setup: Setup, w: World, step: Step)
    requires QueuesFit(w) && Enabled(setup, w, step)
    ensures QueuesFit(Apply(setup, w, step))
  {
    forall i | i in Apply(setup, w, step).instances ensures QueueFits(Apply(setup, w, step).instances[i]) {
      QueueFitsPreserved(setup, w, step, i);
    }
  }

  /** On every run the queue stays within its capacity, and whenever the dispatcher has a job
      to send there is room for it: sending never waits. */
  lemma {:induction false} DispatcherNeverBlocks(setup: Setup, w: World, steps: seq<Step>)
    requires QueuesFit(w) && Possible(setup, w, steps)
    ensures var end := After(setup, w, steps);
      forall i | i in end.instances ::
        && |end.instances[i].queue| <= end.instances[i].capacity
        && (end.instances[i].dispatch.Sending? && end.instances[i].dispatch.jobs != [] ==> Enabled(setup, end, Send(i)))
    decreases |steps|
  {
    if steps != [] {
      QueuesFitPreserved(setup, w, steps[0]);
      DispatcherNeverBlocks(setup, Apply(setup, w, steps[0]), steps[1..]);
    }
  }

  /** When the dispatcher goes on to claim: exactly if the reading it has taken is not before the end of
      the pause and the queue has room; then with that reading, for the notified order alone or for
      as many due orders as there are free slots. */
  lemma DispatcherGoesOnExactly(setup: Setup, w: World, i: InstanceId)
    requires Enabled(setup, w, CheckDispatch(i))
    ensures var before, end := w.instances[i], Apply(setup, w, CheckDispatch(i));
      var at, target, free := before.dispatch.at, before.dispatch.target, before.capacity - |before.queue|;
      && end.rows == w.rows && end.clock == w.clock && i in end.instances
      && end.instances[i].queue == before.queue && end.instances[i].pausedUntil == before.pausedUntil
      && (end.instances[i].dispatch.Ready? <==> before.pausedUntil <= at && |before.queue| < before.capacity)
      && (end.instances[i].dispatch.Ready? ==>
            end.instances[i].dispatch == Ready(at, target, if target.Some? then 1 else free))
      && (!end.instances[i].dispatch.Ready? ==> end.instances[i].dispatch == Waiting)
  {
  }

  // ---------------------------------------------------------------- how far an order can be put off

  /** No order may be scheduled beyond this time. */
  function Horizon(setup: Setup, w: World): Time {
    Later(w.clock + Later(setup.lease, LONG_BACKOFF_CAP), w.longestPause)
  }

  predicate WorkWithin(work: Work, clock: Time, horizon: Time) {
    match work
    case Timed(_, at) => at <= clock
    case Admitted(_, at) => at <= clock
    case Saving(_, update) => update.nextCheckAt <= horizon
    case _ => true
  }

  predicate InstanceWithin(instance: Instance, clock: Time, longestPause: Time) {
    && instance.pausedUntil <= longestPause
    && (instance.dispatch.Read? || instance.dispatch.Ready? ==> instance.dispatch.at <= clock)
  }

  ghost predicate WithinHorizon(setup: Setup, w: World) {
    && (forall d | d in w.rows :: w.rows[d].nextCheckAt <= Horizon(setup, w))
    && (forall i | i in w.instances :: InstanceWithin(w.instances[i], w.clock, w.longestPause))
    && (forall i: InstanceId, k: nat | HasWorker(w, i, k) ::
          WorkWithin(w.instances[i].workers[k], w.clock, Horizon(setup, w)))
    && 0 <= w.longestPause
  }

  lemma HorizonGrows(setup: Setup, w: World, step: Step)
    requires Enabled(setup, w, step)
    ensures w.clock <= Apply(setup, w, step).clock && w.longestPause <= Apply(setup, w, step).longestPause
    ensures Horizon(setup, w) <= Horizon(setup, Apply(setup, w, step))
  {
  }

  lemma WorkStaysWithin(setup: Setup, w: World, step: Step, i: InstanceId, k: nat)
    requires WithinHorizon(setup, w) && ValidWorld(setup, w) && Enabled(setup, w, step)
        && HasWorker(Apply(setup, w, step), i, k)
    ensures var w' := Apply(setup, w, step); WorkWithin(w'.instances[i].workers[k], w'.clock, Horizon(setup, w'))
  {
    WorkersKeep(setup, w, step, i, k);
    HorizonGrows(setup, w, step);
    if Touches(step, i, k) && step.Receive? {
      assert Live(w, AtWorker(i, k));
      RespondKeepsValidity(w.instances[i].workers[k].job.pending, step.response, w.clock, 0);
    }
  }

  lemma RowsStayWithin(setup: Setup, w: World, step: Step)
    requires WithinHorizon(setup, w) && Enabled(setup, w, step)
    ensures var w' := Apply(setup, w, step); forall d | d in w'.rows :: w'.rows[d].nextCheckAt <= Horizon(setup, w')
  {
    HorizonGrows(setup, w, step);
  }

  lemma PauseStaysWithin(setup: Setup, w: World, step: Step, i: InstanceId)
    requires WithinHorizon(setup, w) && Enabled(setup, w, step) && i in Apply(setup, w, step).instances
    ensures Apply(setup, w, step).instances[i].pausedUntil <= Apply(setup, w, step).longestPause
  {
    assert i in w.instances ==> InstanceWithin(w.instances[i], w.clock, w.longestPause);
  }

  lemma InstanceStaysWithin(setup: Setup, w: World, step: Step, i: InstanceId)
    requires WithinHorizon(setup, w) && Enabled(setup, w, step) && i in Apply(setup, w, step).instances
    ensures var w' := Apply(setup, w, step); InstanceWithin(w'.instances[i], w'.clock, w'.longestPause)
  {
    HorizonGrows(setup, w, step);
    PauseStaysWithin(setup, w, step, i);
    if !Dispatches(step, i) {
      DispatcherKeeps(setup, w, step, i);
    }
    assert i in w.instances ==> InstanceWithin(w.instances[i], w.clock, w.longestPause);
  }

  lemma WithinHorizonPreserved(setup: Setup, w: World, step: Step)
    requires WithinHorizon(setup, w) && ValidWorld(setup, w) && Enabled(setup, w, step)
    ensures WithinHorizon(setup, Apply(setup, w, step))
  {
    var w' := Apply(setup, w, step);
    HorizonGrows(setup, w, step);
    RowsStayWithin(setup, w, step);
    forall i | i in w'.instances ensures InstanceWithin(w'.instances[i], w'.clock, w'.longestPause) {
      InstanceStaysWithin(setup, w, step, i);
    }
    forall i: InstanceId, k: nat | HasWorker(w', i, k)
      ensures WorkWithin(w'.instances[i].workers[k], w'.clock, Horizon(setup, w')) {
      WorkStaysWithin(setup, w, step, i, k);
    }
  }

  lemma {:induction false} AlwaysWithinHorizon(setup: Setup, w: World, steps: seq<Step>)
    requires WithinHorizon(setup, w) && ValidWorld(setup, w) && Possible(setup, w, steps)
    ensures WithinHorizon(setup, After(setup, w, steps)) && RowsAdvance(w.rows, After(setup, w, steps).rows)
    decreases |steps|
  {
    if steps != [] {
      var w' := Apply(setup, w, steps[0]);
      WithinHorizonPreserved(setup, w, steps[0]);
      ValidityPreserved(setup, w, steps[0]);
      StepAdvancesRows(setup, w, steps[0]);
      AlwaysWithinHorizon(setup, w', steps[1..]);
      AdvancesTransitively(w.rows, w'.rows, After(setup, w, steps).rows);
    }
  }

  /** No order is lost or put off for good: on every run every submitted order keeps its row,
      and its next check is never later than the lease or five minutes from now, or the end
      of the longest pause asked for, whichever is latest. */
  lemma NoOrderIsLost(setup: Setup, w: World, steps: seq<Step>, d: Digest)
    requires WithinHorizon(setup, w) && ValidWorld(setup, w) && Possible(setup, w, steps)
    requires d in w.rows
    ensures var end := After(setup, w, steps);
      && d in end.rows && end.rows[d].number == w.rows[d].number
      && (|| end.rows[d].nextCheckAt <= end.clock + setup.lease
          || end.rows[d].nextCheckAt <= end.clock + 300_000_000_000
          || end.rows[d].nextCheckAt <= end.longestPause)
  {
    AlwaysWithinHorizon(setup, w, steps);
  }
}
