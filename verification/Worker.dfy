/** The polling worker as one object: its pause, its queue of jobs and the notifications waiting
    for it, over a table of orders. The methods are what the dispatcher and a worker do for one
    tick, notification or job; `Polling` interleaves their steps. */
module Workers {
  import opened Wrappers
  import opened OrderNumber
  import opened Accrual
  import opened Orders
  import opened OrderTables
  import Polling
  import opened PollingRuns

  /** The table and the pause after one job: `at` and `answeredAt` are the clock readings before
      the pause is checked and after the response has come. */
  function AfterJob(hash: Hash, rows: Rows, pausedUntil: Time, pending: Pending, at: Time, response: Response,
      answeredAt: Time)
    : (Rows, Time)
  {
    if at < pausedUntil then (Saved(rows, hash, Postpone(pending, pausedUntil)), pausedUntil)
    else if response.RateLimited? then
      var until := Polling.ExtendedPause(pausedUntil, answeredAt + Polling.Later(response.retryAfter, 0));
      (Saved(rows, hash, Postpone(pending, until)), until)
    else (Saved(rows, hash, Respond(pending, response, answeredAt, 0)), pausedUntil)
  }

  class Worker {
    const table: OrderTable
    const capacity: nat
    const lease: Time
    const notifyBuffer: nat
    var pausedUntil: Time
    var jobs: seq<Pending>
    var notifications: seq<Number>

    /** Settings that are not positive are replaced by the defaults. */
    constructor (table: OrderTable, batchSize: int, lease: Time, notifyBuffer: int)
      ensures this.table == table && pausedUntil == 0 && jobs == [] && notifications == []
      ensures capacity > 0 && capacity == (if batchSize > 0 then batchSize else 100)
      ensures this.lease > 0 && this.lease == (if lease > 0 then lease else 60_000_000_000)
      ensures this.notifyBuffer > 0 && this.notifyBuffer == (if notifyBuffer > 0 then notifyBuffer else 1024)
    {
      this.table := table;
      this.capacity := if batchSize <= 0 then 100 else batchSize;
      this.lease := if lease <= 0 then 60 * SECOND else lease;
      this.notifyBuffer := if notifyBuffer <= 0 then 1024 else notifyBuffer;
      pausedUntil, jobs, notifications := 0, [], [];
    }

    /** Remembers an order to claim at once, unless too many are waiting; never blocks. */
    method Notify(number: Number)
      modifies this`notifications
      ensures notifications == if |old(notifications)| < notifyBuffer then old(notifications) + [number]
          else old(notifications)
    {
      if |notifications| < notifyBuffer {
        notifications := notifications + [number];
      }
    }

    method Pause(now: Time) returns (until: Time, paused: bool)
      ensures until == pausedUntil && (paused <==> now < pausedUntil)
    {
      return pausedUntil, now < pausedUntil;
    }

    method ExtendPause(now: Time, retryAfter: Time) returns (until: Time)
      modifies this`pausedUntil
      ensures until == pausedUntil == Polling.ExtendedPause(old(pausedUntil), now + Polling.Later(retryAfter, 0))
      ensures old(pausedUntil) <= until && now <= until && now + retryAfter <= until
      ensures until == old(pausedUntil) || until == now + if retryAfter < 0 then 0 else retryAfter
    {
      var wait := retryAfter;
      if wait < 0 {
        wait := 0;
      }
      if now + wait > pausedUntil {
        pausedUntil := now + wait;
      }
      return pausedUntil;
    }

    /** Queues as many due orders as there are free slots; never queues more. */
    method ClaimDue(now: Time, locked: set<Digest>) returns (ghost picked: seq<Digest>)
      requires |jobs| <= capacity
      modifies this`jobs, table
      ensures |jobs| <= capacity
      ensures if now < pausedUntil || |old(jobs)| == capacity
              then jobs == old(jobs) && table.rows == old(table.rows)
              else Picked(old(table.rows), now, capacity - |old(jobs)|, locked, picked)
                   && jobs == old(jobs) + PendingsOf(old(table.rows), picked)
                   && table.rows == Leased(old(table.rows), picked, now + lease)
    {
      picked := [];
      var until, paused := Pause(now);
      if paused {
        return;
      }
      var free := capacity - |jobs|;
      if free <= 0 {
        return;
      }
      var claimed;
      claimed, picked := table.ClaimDue(now, now + lease, free, locked);
      var i := 0;
      while i < |claimed|
        invariant 0 <= i <= |claimed|
        invariant jobs == old(jobs) + claimed[..i]
        invariant table.rows == Leased(old(table.rows), picked, now + lease)
      {
        assert |jobs| < capacity;
        jobs := jobs + [claimed[i]];
        i := i + 1;
      }
      assert claimed[..|claimed|] == claimed;
    }

    /** Queues one order if it is due and there is room. */
    method Claim(number: Number, now: Time)
      requires |jobs| <= capacity
      modifies this`jobs, table
      ensures |jobs| <= capacity
      ensures var d := table.hash(number);
        if && now >= pausedUntil && |old(jobs)| < capacity
           && d in old(table.rows) && old(table.rows)[d].number == number && old(table.rows)[d].nextCheckAt <= now
           && (old(table.rows)[d].status == New || old(table.rows)[d].status == Processing)
        then
          var row := old(table.rows)[d];
          && jobs == old(jobs) + [Pending(number, row.status, row.attempts, row.backoff)]
          && table.rows == old(table.rows)[d := row.(nextCheckAt := now + lease)]
        else jobs == old(jobs) && table.rows == old(table.rows)
    {
      var until, paused := Pause(now);
      if paused || |jobs| >= capacity {
        return;
      }
      var pending := table.Claim(number, now, now + lease);
      if pending.Some? {
        jobs := jobs + [pending.value];
      }
    }

    /** One job from start to end, with the response the accrual system would give. */
    method Process(pending: Pending, at: Time, response: Response, answeredAt: Time)
      requires ValidPending(pending) && ValidResponse(response)
      modifies this`pausedUntil, table
      ensures (table.rows, pausedUntil)
           == AfterJob(table.hash, old(table.rows), old(pausedUntil), pending, at, response, answeredAt)
      ensures
        var postponed := Update(pending.number, pending.status, None, pending.attempts, pending.backoff, pausedUntil);
        if at < old(pausedUntil) then
          pausedUntil == old(pausedUntil) && table.rows == Saved(old(table.rows), table.hash, postponed)
        else if response.RateLimited? then
          && old(pausedUntil) <= pausedUntil && answeredAt + response.retryAfter <= pausedUntil
          && (pausedUntil == old(pausedUntil) || pausedUntil == answeredAt + response.retryAfter)
          && table.rows == Saved(old(table.rows), table.hash, postponed)
        else
          && pausedUntil == old(pausedUntil)
          && table.rows == Saved(old(table.rows), table.hash, Respond(pending, response, answeredAt, 0))
    {
      var until, paused := Pause(at);
      if paused {
        var saved := table.Save(Update(pending.number, pending.status, None, pending.attempts, pending.backoff, until));
        return;
      }
      RespondKeepsValidity(pending, response, answeredAt, 0);
      match response
      case RateLimited(retryAfter) =>
        until := ExtendPause(answeredAt, retryAfter);
        var saved := table.Save(Update(pending.number, pending.status, None, pending.attempts, pending.backoff, until));
      case FetchFailed =>
        var saved := table.Save(Decide(pending, None, answeredAt));
      case Answer(result) =>
        var saved := table.Save(Decide(pending, Some(result), answeredAt));
    }
  }

  // ---------------------------------------------------------------- agreement with the protocol

  /** The steps a worker takes for one job, with time passing while it waits for the response. */
  function JobSteps(i: Polling.InstanceId, k: nat, paused: bool, response: Response, elapsed: Time): seq<Polling.Step> {
    CheckSteps(i, k) + if paused then [Polling.Save(i, k)] else FetchSteps(i, k, response, elapsed)
  }

  function CheckSteps(i: Polling.InstanceId, k: nat): seq<Polling.Step> {
    [Polling.ReadClock(i, k)] + [Polling.CheckPause(i, k)]
  }

  function FetchSteps(i: Polling.InstanceId, k: nat, response: Response, elapsed: Time): seq<Polling.Step> {
    WaitSteps(i, k, elapsed) + AnswerSteps(i, k, response)
  }

  function WaitSteps(i: Polling.InstanceId, k: nat, elapsed: Time): seq<Polling.Step> {
    [Polling.StartFetch(i, k)] + [Polling.Tick(elapsed)]
  }

  function AnswerSteps(i: Polling.InstanceId, k: nat, response: Response): seq<Polling.Step> {
    LearnSteps(i, k, response) + [Polling.Save(i, k)]
  }

  function LearnSteps(i: Polling.InstanceId, k: nat, response: Response): seq<Polling.Step> {
    [Polling.Receive(i, k, response)] + if response.RateLimited? then [Polling.ExtendPause(i, k)] else []
  }

  /** Worker `k` of instance `i` is at `work`, with this pause. */
  predicate WorkerAt(w: Polling.World, i: Polling.InstanceId, k: nat, work: Polling.Work, pausedUntil: Time) {
    Polling.HasWorker(w, i, k) && w.instances[i].workers[k] == work && w.instances[i].pausedUntil == pausedUntil
  }

  lemma SavingStep(setup: Polling.Setup, w: Polling.World, i: Polling.InstanceId, k: nat, job: Polling.Job,
                   update: Update, pausedUntil: Time)
    returns (end: Polling.World)
    requires WorkerAt(w, i, k, Polling.Saving(job, update), pausedUntil)
    ensures Leads(setup, w, [Polling.Save(i, k)], end)
    ensures end.rows == Saved(w.rows, setup.hash, update)
    ensures WorkerAt(end, i, k, Polling.Idle, pausedUntil)
  {
    end := Polling.Apply(setup, w, Polling.Save(i, k));
    One(setup, w, Polling.Save(i, k));
  }

  lemma CheckingSteps(setup: Polling.Setup, w: Polling.World, i: Polling.InstanceId, k: nat, job: Polling.Job,
      pausedUntil: Time)
    returns (end: Polling.World)
    requires WorkerAt(w, i, k, Polling.Holding(job), pausedUntil)
    ensures Leads(setup, w, CheckSteps(i, k), end) && end.rows == w.rows && end.clock == w.clock
    ensures WorkerAt(end, i, k, if w.clock < pausedUntil then Polling.Saving(job, Postpone(job.pending, pausedUntil))
                                else Polling.Admitted(job, w.clock), pausedUntil)
  {
    var read := Polling.Apply(setup, w, Polling.ReadClock(i, k));
    One(setup, w, Polling.ReadClock(i, k));
    assert WorkerAt(read, i, k, Polling.Timed(job, w.clock), pausedUntil);
    end := Polling.Apply(setup, read, Polling.CheckPause(i, k));
    One(setup, read, Polling.CheckPause(i, k));
    Join(setup, w, [Polling.ReadClock(i, k)], read, [Polling.CheckPause(i, k)], end);
  }

  lemma WaitingSteps(setup: Polling.Setup, w: Polling.World, i: Polling.InstanceId, k: nat, job: Polling.Job, at: Time,
                     elapsed: Time, pausedUntil: Time)
    returns (end: Polling.World)
    requires WorkerAt(w, i, k, Polling.Admitted(job, at), pausedUntil) && elapsed >= 0
    ensures Leads(setup, w, WaitSteps(i, k, elapsed), end) && end.rows == w.rows && end.clock == w.clock + elapsed
    ensures WorkerAt(end, i, k, Polling.Fetching(job), pausedUntil)
  {
    var started := Polling.Apply(setup, w, Polling.StartFetch(i, k));
    One(setup, w, Polling.StartFetch(i, k));
    end := Polling.Apply(setup, started, Polling.Tick(elapsed));
    One(setup, started, Polling.Tick(elapsed));
    Join(setup, w, [Polling.StartFetch(i, k)], started, [Polling.Tick(elapsed)], end);
  }

  lemma LearningSteps(setup: Polling.Setup, w: Polling.World, i: Polling.InstanceId, k: nat, job: Polling.Job,
                      response: Response, pausedUntil: Time)
    returns (end: Polling.World)
    requires WorkerAt(w, i, k, Polling.Fetching(job), pausedUntil) && ValidResponse(response)
    ensures Leads(setup, w, LearnSteps(i, k, response), end) && end.rows == w.rows
    ensures if response.RateLimited? then
              var until := Polling.ExtendedPause(pausedUntil, w.clock + Polling.Later(response.retryAfter, 0));
              WorkerAt(end, i, k, Polling.Saving(job, Postpone(job.pending, until)), until)
            else WorkerAt(end, i, k, Polling.Saving(job, Respond(job.pending, response, w.clock, 0)), pausedUntil)
  {
    var steps := [Polling.Receive(i, k, response)];
    end := Polling.Apply(setup, w, steps[0]);
    One(setup, w, steps[0]);
    if response.RateLimited? {
      var until := w.clock + Polling.Later(response.retryAfter, 0);
      assert WorkerAt(end, i, k, Polling.Limited(job, until), pausedUntil);
      steps, end := Then(setup, w, steps, end, Polling.ExtendPause(i, k));
    } else {
      assert steps + [] == steps;
    }
  }

  /** The interleaved protocol agrees with `Worker.Process`: a job whose steps nothing interrupts
      leaves the table and the pause as that method does. */
  lemma UninterruptedJob(setup: Polling.Setup, w: Polling.World, i: Polling.InstanceId, k: nat,
      response: Response, elapsed: Time)
    returns (end: Polling.World)
    requires Polling.HasWorker(w, i, k) && w.instances[i].workers[k].Holding? && ValidResponse(response) && elapsed >= 0
    ensures Leads(setup, w, JobSteps(i, k, w.clock < w.instances[i].pausedUntil, response, elapsed), end)
    ensures i in end.instances
    ensures (end.rows, end.instances[i].pausedUntil)
         == AfterJob(setup.hash, w.rows, w.instances[i].pausedUntil, w.instances[i].workers[k].job.pending,
                     w.clock, response, w.clock + elapsed)
  {
    var job, pausedUntil := w.instances[i].workers[k].job, w.instances[i].pausedUntil;
    var checked := CheckingSteps(setup, w, i, k, job, pausedUntil);
    if w.clock < pausedUntil {
      end := SavingStep(setup, checked, i, k, job, Postpone(job.pending, pausedUntil), pausedUntil);
      Join(setup, w, CheckSteps(i, k), checked, [Polling.Save(i, k)], end);
    } else {
      end := UninterruptedFetch(setup, checked, i, k, job, response, elapsed, pausedUntil);
      Join(setup, w, CheckSteps(i, k), checked, FetchSteps(i, k, response, elapsed), end);
    }
  }

  lemma UninterruptedFetch(setup: Polling.Setup, w: Polling.World, i: Polling.InstanceId, k: nat, job: Polling.Job,
                           response: Response, elapsed: Time, pausedUntil: Time)
    returns (end: Polling.World)
    requires WorkerAt(w, i, k, Polling.Admitted(job, w.clock), pausedUntil) && w.clock >= pausedUntil
    requires ValidResponse(response) && elapsed >= 0
    ensures Leads(setup, w, FetchSteps(i, k, response, elapsed), end) && i in end.instances
    ensures (end.rows, end.instances[i].pausedUntil)
         == AfterJob(setup.hash, w.rows, pausedUntil, job.pending, w.clock, response, w.clock + elapsed)
  {
    var waited := WaitingSteps(setup, w, i, k, job, w.clock, elapsed, pausedUntil);
    var learned := LearningSteps(setup, waited, i, k, job, response, pausedUntil);
    var work := learned.instances[i].workers[k];
    end := SavingStep(setup, learned, i, k, job, work.update, learned.instances[i].pausedUntil);
    Join(setup, waited, LearnSteps(i, k, response), learned, [Polling.Save(i, k)], end);
    Join(setup, w, WaitSteps(i, k, elapsed), waited, AnswerSteps(i, k, response), end);
  }

  // ---------------------------------------------------------------- ticks and notifications

  function Sends(i: Polling.InstanceId, n: nat): seq<Polling.Step> {
    if n == 0 then [Polling.SendingDone(i)] else [Polling.Send(i)] + Sends(i, n - 1)
  }

  /** A dispatcher queues what it has claimed, in order. */
  lemma {:induction false} SendAll(setup: Polling.Setup, w: Polling.World, i: Polling.InstanceId,
      jobs: seq<Polling.Job>)
    returns (end: Polling.World)
    requires i in w.instances && w.instances[i].dispatch == Polling.Sending(jobs)
    requires |w.instances[i].queue| + |jobs| <= w.instances[i].capacity
    ensures Leads(setup, w, Sends(i, |jobs|), end) && end.rows == w.rows && i in end.instances
    ensures end.instances[i] == w.instances[i].(dispatch := Polling.Waiting, queue := w.instances[i].queue + jobs)
    decreases |jobs|
  {
    if jobs == [] {
      end := Polling.Apply(setup, w, Polling.SendingDone(i));
      One(setup, w, Polling.SendingDone(i));
      assert w.instances[i].queue + jobs == w.instances[i].queue;
    } else {
      var sent := Polling.Apply(setup, w, Polling.Send(i));
      One(setup, w, Polling.Send(i));
      end := SendAll(setup, sent, i, jobs[1..]);
      Join(setup, w, [Polling.Send(i)], sent, Sends(i, |jobs| - 1), end);
      assert w.instances[i].queue + [jobs[0]] + jobs[1..] == w.instances[i].queue + jobs;
    }
  }

  /** The steps of a tick: `picked` is claimed unless the pause or a full queue prevents it. */
  function TickSteps(i: Polling.InstanceId, goesOn: bool, picked: seq<Digest>, locked: set<Digest>): seq<Polling.Step> {
    DispatchSteps(i, None) + if goesOn then [Polling.ClaimDue(i, picked, locked)] + Sends(i, |picked|) else []
  }

  /** The steps for a notification; what is claimed is sent if the order is due. */
  function NotificationSteps(i: Polling.InstanceId, number: Number, goesOn: bool, due: bool): seq<Polling.Step> {
    DispatchSteps(i, Some(number)) + if goesOn then [Polling.ClaimOne(i)] + (if due then Sends(i, 1) else []) else []
  }

  function DispatchSteps(i: Polling.InstanceId, target: Option<Number>): seq<Polling.Step> {
    [Polling.ReadForDispatch(i, target)] + [Polling.CheckDispatch(i)]
  }

  lemma CheckedDispatch(setup: Polling.Setup, w: Polling.World, i: Polling.InstanceId, target: Option<Number>)
    returns (end: Polling.World)
    requires i in w.instances && w.instances[i].dispatch.Waiting?
    ensures Leads(setup, w, DispatchSteps(i, target), end) && end.rows == w.rows && i in end.instances
    ensures var before := w.instances[i];
      end.instances[i] ==
        if w.clock < before.pausedUntil || |before.queue| >= before.capacity then before
        else before.(dispatch := Polling.Ready(w.clock, target,
                                               if target.Some? then 1 else before.capacity - |before.queue|))
  {
    var read := Polling.Apply(setup, w, Polling.ReadForDispatch(i, target));
    One(setup, w, Polling.ReadForDispatch(i, target));
    end := Polling.Apply(setup, read, Polling.CheckDispatch(i));
    One(setup, read, Polling.CheckDispatch(i));
    Join(setup, w, [Polling.ReadForDispatch(i, target)], read, [Polling.CheckDispatch(i)], end);
  }

  /** The interleaved protocol agrees with `Worker.ClaimDue`: an undisturbed tick changes nothing while
      the pause lasts or the queue is full, and otherwise fills the free slots with leased orders. */
  lemma UndisturbedTick(setup: Polling.Setup, w: Polling.World, i: Polling.InstanceId, picked: seq<Digest>,
      locked: set<Digest>)
    returns (end: Polling.World)
    requires i in w.instances && w.instances[i].dispatch.Waiting?
    requires w.instances[i].pausedUntil <= w.clock && |w.instances[i].queue| < w.instances[i].capacity ==>
      Picked(w.rows, w.clock, w.instances[i].capacity - |w.instances[i].queue|, locked, picked)
    ensures var before := w.instances[i];
      var goesOn := before.pausedUntil <= w.clock && |before.queue| < before.capacity;
      && Leads(setup, w, TickSteps(i, goesOn, picked, locked), end) && i in end.instances
      && end.instances[i].dispatch == Polling.Waiting && end.instances[i].pausedUntil == before.pausedUntil
      && if goesOn then
           && end.rows == Leased(w.rows, picked, w.clock + setup.lease)
           && end.instances[i].queue == before.queue + Polling.JobsOf(w.rows, picked, w.clock + setup.lease)
         else end.rows == w.rows && end.instances[i].queue == before.queue
  {
    var before := w.instances[i];
    end := CheckedDispatch(setup, w, i, None);
    if before.pausedUntil <= w.clock && |before.queue| < before.capacity {
      var checked := end;
      var claim := Polling.ClaimDue(i, picked, locked);
      var claimed := Polling.Apply(setup, checked, claim);
      One(setup, checked, claim);
      end := SendAll(setup, claimed, i, Polling.JobsOf(w.rows, picked, w.clock + setup.lease));
      Join(setup, checked, [claim], claimed, Sends(i, |picked|), end);
      Join(setup, w, DispatchSteps(i, None), checked, [claim] + Sends(i, |picked|), end);
    } else {
      assert DispatchSteps(i, None) + [] == DispatchSteps(i, None);
    }
  }

  /** And with `Worker.Claim`: an undisturbed notification queues and leases the order exactly if it
      is due, the pause is over and there is room. */
  lemma UndisturbedNotification(setup: Polling.Setup, w: Polling.World, i: Polling.InstanceId, number: Number)
    returns (end: Polling.World)
    requires i in w.instances && w.instances[i].dispatch.Waiting?
    ensures var before, d := w.instances[i], setup.hash(number);
      var goesOn := before.pausedUntil <= w.clock && |before.queue| < before.capacity;
      var due := && d in w.rows && w.rows[d].number == number && w.rows[d].nextCheckAt <= w.clock
                 && (w.rows[d].status == New || w.rows[d].status == Processing);
      && Leads(setup, w, NotificationSteps(i, number, goesOn, due), end) && i in end.instances
      && end.instances[i].dispatch == Polling.Waiting && end.instances[i].pausedUntil == before.pausedUntil
      && if goesOn && due then
           var row, lease := w.rows[d], w.clock + setup.lease;
           && end.rows == w.rows[d := row.(nextCheckAt := lease)]
           && end.instances[i].queue
              == before.queue + [Polling.Job(Pending(number, row.status, row.attempts, row.backoff), lease)]
         else end.rows == w.rows && end.instances[i].queue == before.queue
  {
    var before, d := w.instances[i], setup.hash(number);
    end := CheckedDispatch(setup, w, i, Some(number));
    if before.pausedUntil <= w.clock && |before.queue| < before.capacity {
      var checked := end;
      end := ClaimedNotification(setup, checked, i, number, w.clock);
      var due := Polling.OneDue(setup, w, number, w.clock);
      Join(setup, w, DispatchSteps(i, Some(number)), checked,
          [Polling.ClaimOne(i)] + (if due then Sends(i, 1) else []), end);
    } else {
      assert DispatchSteps(i, Some(number)) + [] == DispatchSteps(i, Some(number));
    }
  }

  lemma ClaimedNotification(setup: Polling.Setup, w: Polling.World, i: Polling.InstanceId, number: Number, at: Time)
    returns (end: Polling.World)
    requires i in w.instances && w.instances[i].dispatch == Polling.Ready(at, Some(number), 1)
    requires |w.instances[i].queue| < w.instances[i].capacity
    ensures var due := Polling.OneDue(setup, w, number, at);
      Leads(setup, w, [Polling.ClaimOne(i)] + (if due then Sends(i, 1) else []), end) && i in end.instances
    ensures var before, d, lease := w.instances[i], setup.hash(number), at + setup.lease;
      if Polling.OneDue(setup, w, number, at) then
        && end.rows == w.rows[d := w.rows[d].(nextCheckAt := lease)]
        && end.instances[i] == before.(dispatch := Polling.Waiting,
                                       queue := before.queue + [Polling.Job(PendingOf(w.rows[d]), lease)])
      else end.rows == w.rows && end.instances[i] == before.(dispatch := Polling.Waiting)
  {
    var claimed := Polling.Apply(setup, w, Polling.ClaimOne(i));
    One(setup, w, Polling.ClaimOne(i));
    var d, lease := setup.hash(number), at + setup.lease;
    if Polling.OneDue(setup, w, number, at) {
      var jobs := [Polling.Job(PendingOf(w.rows[d]), lease)];
      assert Polling.JobsOf(w.rows, [d], lease) == jobs;
      end := SendAll(setup, claimed, i, jobs);
      Join(setup, w, [Polling.ClaimOne(i)], claimed, Sends(i, 1), end);
      assert Leased(w.rows, [d], lease) == w.rows[d := w.rows[d].(nextCheckAt := lease)];
    } else {
      end := claimed;
      assert [Polling.ClaimOne(i)] + [] == [Polling.ClaimOne(i)];
    }
  }
}
