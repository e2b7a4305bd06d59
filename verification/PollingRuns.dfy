/** Building runs step by step, for results about what can happen from any state on. */
module PollingRuns {
  import opened Wrappers
  import opened OrderNumber
  import opened Accrual
  import opened Orders
  import opened Polling

  /** The run `steps` leads from `w` to `end`. */
  ghost predicate Leads(setup: Setup, w: World, steps: seq<Step>, end: World) {
    Possible(setup, w, steps) && After(setup, w, steps) == end
  }

  lemma {:induction false} Join(setup: Setup, w: World, first: seq<Step>, mid: World, second: seq<Step>, end: World)
    requires Leads(setup, w, first, mid) && Leads(setup, mid, second, end)
    ensures Leads(setup, w, first + second, end)
    decreases |first|
  {
    if first == [] {
      assert first + second == second;
    } else {
      assert (first + second)[1..] == first[1..] + second;
      Join(setup, Apply(setup, w, first[0]), first[1..], mid, second, end);
    }
  }

  lemma One(setup: Setup, w: World, step: Step)
    requires Enabled(setup, w, step)
    ensures Leads(setup, w, [step], Apply(setup, w, step))
  {
    assert [step][1..] == [];
    assert Leads(setup, Apply(setup, w, step), [], Apply(setup, w, step));
  }

  /** A run made longer by one step. */
  lemma Then(setup: Setup, w: World, steps: seq<Step>, now: World, step: Step) returns (more: seq<Step>, next: World)
    requires Leads(setup, w, steps, now) && Enabled(setup, now, step)
    ensures more == steps + [step] && next == Apply(setup, now, step) && Leads(setup, w, more, next)
  {
    more, next := steps + [step], Apply(setup, now, step);
    One(setup, now, step);
    Join(setup, w, steps, now, [step], next);
  }

  // ---------------------------------------------------------------- what an idle instance can do

  /** The dispatcher waits, the queue has room and the pause is over. */
  predicate Free(w: World, i: InstanceId) {
    && i in w.instances && w.instances[i].dispatch.Waiting? && |w.instances[i].queue| < w.instances[i].capacity
    && w.instances[i].pausedUntil <= w.clock
  }

  /** A free dispatcher that is notified of a due order claims it. */
  lemma ClaimNotified(setup: Setup, w: World, i: InstanceId, number: Number) returns (steps: seq<Step>, end: World)
    requires Free(w, i) && OneDue(setup, w, number, w.clock)
    ensures Leads(setup, w, steps, end)
    ensures var d, lease := setup.hash(number), w.clock + setup.lease;
      end == WithDispatch(w, i, Sending([Job(PendingOf(w.rows[d]), lease)])).(rows := Leased(w.rows, [d], lease))
  {
    steps, end := [], w;
    assert Leads(setup, w, steps, end);
    steps, end := Then(setup, w, steps, end, ReadForDispatch(i, Some(number)));
    steps, end := Then(setup, w, steps, end, CheckDispatch(i));
    assert end == WithDispatch(w, i, Ready(w.clock, Some(number), 1));
    steps, end := Then(setup, w, steps, end, ClaimOne(i));
    assert JobsOf(w.rows, [setup.hash(number)], w.clock + setup.lease)
        == [Job(PendingOf(w.rows[setup.hash(number)]), w.clock + setup.lease)];
  }

  /** A dispatcher with one claimed job queues it. */
  lemma SendOne(setup: Setup, w: World, i: InstanceId, job: Job) returns (steps: seq<Step>, end: World)
    requires i in w.instances && w.instances[i].dispatch == Sending([job])
    requires |w.instances[i].queue| < w.instances[i].capacity
    ensures Leads(setup, w, steps, end)
    ensures end == With(w, i, w.instances[i].(dispatch := Waiting, queue := w.instances[i].queue + [job]))
  {
    steps, end := [], w;
    assert Leads(setup, w, steps, end);
    steps, end := Then(setup, w, steps, end, Send(i));
    assert [job][1..] == [];
    steps, end := Then(setup, w, steps, end, SendingDone(i));
  }

  /** An idle worker takes the only job and passes the pause check with the clock as it stands. */
  lemma TakeAndPass(setup: Setup, w: World, i: InstanceId, k: nat, job: Job) returns (steps: seq<Step>, end: World)
    requires HasWorker(w, i, k) && w.instances[i].workers[k].Idle? && w.instances[i].queue == [job]
    requires w.instances[i].pausedUntil <= w.clock
    ensures Leads(setup, w, steps, end)
    ensures end == With(w, i,
        w.instances[i].(queue := [], workers := w.instances[i].workers[k := Admitted(job, w.clock)]))
  {
    var instance := w.instances[i].(queue := []);
    steps, end := [], w;
    assert Leads(setup, w, steps, end);
    steps, end := Then(setup, w, steps, end, Take(i, k));
    assert end == With(w, i, Busy(instance, k, Holding(job))) by { assert [job][1..] == []; }
    steps, end := Then(setup, w, steps, end, ReadClock(i, k));
    BusyTwice(w, i, instance, k, Holding(job), Timed(job, w.clock));
    assert end == With(w, i, Busy(instance, k, Timed(job, w.clock)));
    steps, end := Then(setup, w, steps, end, CheckPause(i, k));
    BusyTwice(w, i, instance, k, Timed(job, w.clock), Admitted(job, w.clock));
  }

  function Busy(instance: Instance, k: nat, work: Work): Instance
    requires k < |instance.workers|
  {
    instance.(workers := instance.workers[k := work])
  }

  lemma BusyTwice(w: World, i: InstanceId, instance: Instance, k: nat, first: Work, second: Work)
    requires k < |instance.workers|
    ensures With(With(w, i, Busy(instance, k, first)), i, Busy(Busy(instance, k, first), k, second))
         == With(w, i, Busy(instance, k, second))
  {
    assert instance.workers[k := first][k := second] == instance.workers[k := second];
    WithTwice(w, i, Busy(instance, k, first), Busy(instance, k, second));
  }

  lemma WithTwice(w: World, i: InstanceId, first: Instance, second: Instance)
    ensures With(With(w, i, first), i, second) == With(w, i, second)
  {
    assert w.instances[i := first][i := second] == w.instances[i := second];
  }

  /** An order is submitted and claimed at once by a free instance with an empty queue. */
  lemma SubmitAndQueue(setup: Setup, w: World, i: InstanceId, number: Number, user: UserId)
    returns (steps: seq<Step>, end: World)
    requires Free(w, i) && w.instances[i].queue == [] && ValidNumber(number) && setup.hash(number) !in w.rows
    ensures Leads(setup, w, steps, end)
    ensures var d, lease := setup.hash(number), w.clock + setup.lease;
      && end.rows == Leased(Inserted(w.rows, d, NewRow(number, user, w.clock)), [d], lease)
      && end == With(w, i, w.instances[i].(queue := [Job(Fresh(number), lease)])).(rows := end.rows)
  {
    steps, end := [], w;
    assert Leads(setup, w, steps, end);
    steps, end := Then(setup, w, steps, end, Submit(number, user, w.clock));
    var job := Job(Fresh(number), w.clock + setup.lease);
    var submitted := end;
    var more, next := ClaimNotified(setup, submitted, i, number);
    Join(setup, w, steps, submitted, more, next);
    steps, end := steps + more, next;
    assert end.instances == w.instances[i := w.instances[i].(dispatch := Sending([job]))];
    more, next := SendOne(setup, end, i, job);
    Join(setup, w, steps, end, more, next);
    steps, end := steps + more, next;
    assert w.instances[i].queue + [job] == [job];
    assert end.instances == w.instances[i := w.instances[i].(queue := [job])];
  }

  /** A new order can get as far as the request to the accrual system in no time. */
  lemma SubmitAndAdmit(setup: Setup, w: World, i: InstanceId, k: nat, number: Number, user: UserId)
    returns (steps: seq<Step>, end: World)
    requires Free(w, i) && w.instances[i].queue == [] && ValidNumber(number) && setup.hash(number) !in w.rows
    requires HasWorker(w, i, k) && w.instances[i].workers[k].Idle?
    ensures Leads(setup, w, steps, end)
    ensures end == WithWork(w, i, k, Admitted(Job(Fresh(number), w.clock + setup.lease), w.clock)).(rows := end.rows)
    ensures end.rows.Keys == w.rows.Keys + {setup.hash(number)}
  {
    steps, end := SubmitAndQueue(setup, w, i, number, user);
    var more, next := TakeAndPass(setup, end, i, k, Job(Fresh(number), w.clock + setup.lease));
    Join(setup, w, steps, end, more, next);
    steps, end := steps + more, next;
  }
}
