/** Whole runs of the ledger: linearizability of withdrawals, what they leave in the tables,
    and freedom from deadlock. */
module LedgerRuns {
  import opened Wrappers
  import opened OrderNumber
  import opened Accrual
  import opened Orders
  import opened Totals
  import opened Ledgers

  ghost predicate Possible(env: Env, s: Ledger, steps: seq<Step>)
    decreases |steps|
  {
    steps == [] || (Enabled(env, s, steps[0]) && Possible(env, Apply(env, s, steps[0]), steps[1..]))
  }

  ghost function After(env: Env, s: Ledger, steps: seq<Step>): Ledger
    requires Possible(env, s, steps)
    decreases |steps|
  {
    if steps == [] then s else After(env, Apply(env, s, steps[0]), steps[1..])
  }

  lemma {:induction false} InvAlways(env: Env, s: Ledger, steps: seq<Step>)
    requires Inv(env, s) && Possible(env, s, steps)
    ensures Inv(env, After(env, s, steps))
    decreases |steps|
  {
    if steps != [] {
      InvPreserved(env, s, steps[0]);
      InvAlways(env, Apply(env, s, steps[0]), steps[1..]);
    }
  }

  lemma {:induction false} RunsCompose(env: Env, s: Ledger, first: seq<Step>, second: seq<Step>)
    requires Possible(env, s, first + second)
    ensures Possible(env, s, first) && Possible(env, After(env, s, first), second)
    ensures After(env, s, first + second) == After(env, After(env, s, first), second)
    decreases |first|
  {
    if first == [] {
      assert first + second == second;
    } else {
      assert (first + second)[1..] == first[1..] + second;
      RunsCompose(env, Apply(env, s, first[0]), first[1..], second);
    }
  }

  // ---------------------------------------------------------------- the sequential ledger

  /** The tables on their own, with no transaction open. */
  datatype Tables = Tables(orders: Rows, withdrawals: map<Digest, WithdrawalRow>)

  /** An operation done at one instant. */
  datatype Op =
    | SubmitOp(number: Number, user: UserId, at: Time)
    | SaveOp(update: Update)
    | WithdrawOp(t: CallId, request: WithdrawalRow, outcome: Outcome)

  /** The rule for one withdrawal made on its own. */
  ghost function Rule(env: Env, tables: Tables, request: WithdrawalRow): Outcome {
    var digest := env.hash(request.number);
    if request.user !in env.users then NoSuchUser
    else if digest in tables.withdrawals then
      if tables.withdrawals[digest].number == request.number then AlreadyWithdrawn else DigestCollision
    else if Balance(tables.orders, tables.withdrawals, request.user) < request.amount then InsufficientFunds
    else Recorded
  }

  /** The effect of an operation, if it has the outcome it claims. */
  ghost function Perform(env: Env, tables: Tables, op: Op): Option<Tables> {
    match op
    case SubmitOp(number, user, at) =>
      Some(tables.(orders := Inserted(tables.orders, env.hash(number), NewRow(number, user, at))))
    case SaveOp(update) => Some(tables.(orders := Saved(tables.orders, env.hash, update)))
    case WithdrawOp(_, request, outcome) =>
      if outcome != Rule(env, tables, request) then None
      else if outcome.Recorded?
          then Some(tables.(withdrawals := tables.withdrawals[env.hash(request.number) := request]))
      else Some(tables)
  }

  ghost function PerformAll(env: Env, tables: Tables, ops: seq<Op>): Option<Tables>
    decreases |ops|
  {
    if ops == [] then Some(tables)
    else match Perform(env, tables, ops[0])
         case None => None
         case Some(next) => PerformAll(env, next, ops[1..])
  }

  // ---------------------------------------------------------------- linearization

  function TablesOf(s: Ledger): Tables {
    Tables(s.orders, s.withdrawals)
  }

  /** The operations that take effect at a step: at most one. */
  ghost function Emitted(env: Env, s: Ledger, step: Step): seq<Op>
    requires Enabled(env, s, step)
  {
    match step
    case Submit(number, user, at) => [SubmitOp(number, user, at)]
    case Save(update) => [SaveOp(update)]
    case LockOwner(t) => EffectOf(t, Apply(env, s, step).calls[t])
    case ReadConflict(t) => EffectOf(t, Apply(env, s, step).calls[t])
    case CheckBalance(t) => EffectOf(t, Apply(env, s, step).calls[t])
    case Commit(t) => EffectOf(t, Apply(env, s, step).calls[t])
    case CommitLost(t) => EffectOf(t, Apply(env, s, step).calls[t])
    case _ => []
  }

  ghost function Linearization(env: Env, s: Ledger, steps: seq<Step>): seq<Op>
    requires Possible(env, s, steps)
    decreases |steps|
  {
    if steps == [] then []
    else Emitted(env, s, steps[0]) + Linearization(env, Apply(env, s, steps[0]), steps[1..])
  }

  lemma {:induction false} LinearizationsCompose(env: Env, s: Ledger, first: seq<Step>, mid: Ledger, second: seq<Step>)
    requires Possible(env, s, first) && After(env, s, first) == mid
    requires Possible(env, mid, second) && Possible(env, s, first + second)
    ensures Linearization(env, s, first + second) == Linearization(env, s, first) + Linearization(env, mid, second)
    decreases |first|
  {
    if first == [] {
      assert first + second == second;
    } else {
      var s', rest := Apply(env, s, first[0]), Linearization(env, mid, second);
      assert (first + second)[1..] == first[1..] + second;
      LinearizationsCompose(env, s', first[1..], mid, second);
      Associate(Emitted(env, s, first[0]), Linearization(env, s', first[1..]), rest);
    }
  }

  lemma Associate<T>(a: seq<T>, b: seq<T>, c: seq<T>)
    ensures a + (b + c) == a + b + c
  {
  }

  /** The operation a call amounts to once its result is fixed. A failed call amounts to a
      withdrawal if it was recorded all the same, and otherwise to nothing. */
  function EffectOf(t: CallId, call: Call): seq<Op> {
    if call.stage.Ending? || call.stage.Done? then
      match call.stage.outcome
      case Failed(recorded) => if recorded then [WithdrawOp(t, call.request, Recorded)] else []
      case outcome => [WithdrawOp(t, call.request, outcome)]
    else []
  }

  function Effect(s: Ledger, t: CallId): seq<Op> {
    if t in s.calls then EffectOf(t, s.calls[t]) else []
  }

  /** The operations of call `t` among `ops`. */
  function OpsOf(ops: seq<Op>, t: CallId): seq<Op> {
    if ops == [] then []
    else (if ops[0].WithdrawOp? && ops[0].t == t then [ops[0]] else []) + OpsOf(ops[1..], t)
  }

  lemma {:induction false} OpsOfConcat(a: seq<Op>, b: seq<Op>, t: CallId)
    ensures OpsOf(a + b, t) == OpsOf(a, t) + OpsOf(b, t)
  {
    if a == [] {
      assert a + b == b;
    } else {
      assert (a + b)[1..] == a[1..] + b;
      OpsOfConcat(a[1..], b, t);
    }
  }

  lemma {:induction false} PerformAllConcat(env: Env, tables: Tables, a: seq<Op>, b: seq<Op>)
    ensures PerformAll(env, tables, a + b) == match PerformAll(env, tables, a)
                                              case None => None
                                              case Some(next) => PerformAll(env, next, b)
    decreases |a|
  {
    if a == [] {
      assert a + b == b;
    } else {
      assert (a + b)[1..] == a[1..] + b;
      match Perform(env, tables, a[0])
      case None =>
      case Some(next) => PerformAllConcat(env, next, a[1..], b);
    }
  }

  /** When a call's result gets fixed other than by a failure, the sequential rule gives that result. */
  lemma SettlingFollowsRule(env: Env, s: Ledger, step: Step)
    requires Inv(env, s) && Enabled(env, s, step) && !step.Submit? && !step.Save? && step.t in s.calls
    requires !Settled(s.calls[step.t].stage)
    requires var call := Apply(env, s, step).calls[step.t]; Settled(call.stage) && call.stage.outcome != Failed(false)
    ensures Emitted(env, s, step)
        == [WithdrawOp(step.t, s.calls[step.t].request, Rule(env, TablesOf(s), s.calls[step.t].request))]
  {
    OwnCall(env, s, step, step.t);
    SettledOutcome(env, s, step);
    SettledEffect(step.t, Apply(env, s, step).calls[step.t]);
    assert Effect(s, step.t) == [];
  }

  lemma SettledEffect(t: CallId, call: Call)
    requires Settled(call.stage) && call.stage.outcome != Failed(false)
    ensures var outcome := call.stage.outcome;
      EffectOf(t, call) == [WithdrawOp(t, call.request, if outcome.Failed? then Recorded else outcome)]
  {
  }

  lemma SettledOutcome(env: Env, s: Ledger, step: Step)
    requires Inv(env, s) && Enabled(env, s, step) && !step.Submit? && !step.Save? && step.t in s.calls
    requires !Settled(s.calls[step.t].stage)
    requires var call := Apply(env, s, step).calls[step.t]; Settled(call.stage) && call.stage.outcome != Failed(false)
    ensures var outcome := Apply(env, s, step).calls[step.t].stage.outcome;
      Rule(env, TablesOf(s), s.calls[step.t].request) == if outcome.Failed? then Recorded else outcome
  {
    var t := step.t;
    if step.CheckBalance? {
      CheckFollowsRule(env, s, t);
    } else if step.Commit? || step.CommitLost? {
      CommitFollowsRule(env, s, t);
    } else if step.ReadConflict? {
      ConflictFollowsRule(env, s, t);
    } else {
      assert step.LockOwner? && s.calls[t].request.user !in env.users;
    }
  }

  lemma ConflictFollowsRule(env: Env, s: Ledger, t: CallId)
    requires Owned(env, s) && StageOf(s, t) == Some(Conflicted)
    ensures Apply(env, s, ReadConflict(t)).calls[t].stage == Ending(Rule(env, TablesOf(s), s.calls[t].request))
  {
  }

  lemma CheckFollowsRule(env: Env, s: Ledger, t: CallId)
    requires Owned(env, s) && StageOf(s, t) == Some(RowInserted)
    ensures var request := s.calls[t].request;
      Balance(s.orders, Visible(s, t), request.user) < 0 <==> Rule(env, TablesOf(s), request) == InsufficientFunds
  {
    VisibleBalance(env, s, t, s.calls[t].request.user);
    VisibleRow(env, s, t);
  }

  lemma CommitFollowsRule(env: Env, s: Ledger, t: CallId)
    requires Inv(env, s) && StageOf(s, t) == Some(Checked)
    ensures Rule(env, TablesOf(s), s.calls[t].request) == Recorded
  {
    VisibleRow(env, s, t);
  }

  lemma PerformOne(env: Env, tables: Tables, op: Op)
    ensures PerformAll(env, tables, [op]) == Perform(env, tables, op)
  {
  }

  lemma CommitIsLinear(env: Env, s: Ledger, step: Step)
    requires Inv(env, s) && Enabled(env, s, step) && (step.Commit? || step.CommitLost?)
    ensures Emitted(env, s, step) == [WithdrawOp(step.t, s.calls[step.t].request, Recorded)]
    ensures PerformAll(env, TablesOf(s), Emitted(env, s, step)) == Some(TablesOf(Apply(env, s, step)))
  {
    var op := WithdrawOp(step.t, s.calls[step.t].request, Recorded);
    CommitFollowsRule(env, s, step.t);
    VisibleRow(env, s, step.t);
    PerformOne(env, TablesOf(s), op);
  }

  /** The tables change at a step as the operation taking effect there says, and otherwise not. */
  lemma StepIsLinear(env: Env, s: Ledger, step: Step)
    requires Inv(env, s) && Enabled(env, s, step)
    ensures PerformAll(env, TablesOf(s), Emitted(env, s, step)) == Some(TablesOf(Apply(env, s, step)))
  {
    if step.Commit? || step.CommitLost? {
      CommitIsLinear(env, s, step);
    } else if step.Submit? || step.Save? {
      PerformOne(env, TablesOf(s), Emitted(env, s, step)[0]);
    } else if Emitted(env, s, step) != [] {
      SettlingFollowsRule(env, s, step);
      PerformOne(env, TablesOf(s), Emitted(env, s, step)[0]);
    }
  }

  function CallOf(step: Step): Option<CallId> {
    if step.Submit? || step.Save? then None else Some(step.t)
  }

  lemma OtherCallsUntouched(env: Env, s: Ledger, step: Step, t: CallId)
    requires Enabled(env, s, step) && CallOf(step) != Some(t)
    ensures StageOf(Apply(env, s, step), t) == StageOf(s, t)
    ensures t in s.calls ==> Apply(env, s, step).calls[t] == s.calls[t]
  {
  }

  lemma OwnCall(env: Env, s: Ledger, step: Step, t: CallId)
    requires Enabled(env, s, step) && CallOf(step) == Some(t)
    ensures t in Apply(env, s, step).calls
    ensures t in s.calls ==> Apply(env, s, step).calls[t].request == s.calls[t].request
    ensures EffectOf(t, Apply(env, s, step).calls[t]) == Effect(s, t) + Emitted(env, s, step)
  {
  }

  lemma EmittedIsOwn(env: Env, s: Ledger, step: Step, t: CallId)
    requires Enabled(env, s, step)
    ensures OpsOf(Emitted(env, s, step), t) == if CallOf(step) == Some(t) then Emitted(env, s, step) else []
  {
  }

  lemma StepEffect(env: Env, s: Ledger, step: Step, t: CallId)
    requires Enabled(env, s, step)
    ensures Effect(Apply(env, s, step), t) == Effect(s, t) + OpsOf(Emitted(env, s, step), t)
  {
    EmittedIsOwn(env, s, step, t);
    if CallOf(step) == Some(t) {
      OwnCall(env, s, step, t);
    } else {
      OtherCallsUntouched(env, s, step, t);
    }
  }

  lemma {:induction false} RunIsLinear(env: Env, s: Ledger, steps: seq<Step>)
    requires Inv(env, s) && Possible(env, s, steps)
    ensures PerformAll(env, TablesOf(s), Linearization(env, s, steps)) == Some(TablesOf(After(env, s, steps)))
    decreases |steps|
  {
    if steps != [] {
      var s' := Apply(env, s, steps[0]);
      InvPreserved(env, s, steps[0]);
      StepIsLinear(env, s, steps[0]);
      RunIsLinear(env, s', steps[1..]);
      PerformAllConcat(env, TablesOf(s), Emitted(env, s, steps[0]), Linearization(env, s', steps[1..]));
    }
  }

  lemma {:induction false} RunEffect(env: Env, s: Ledger, steps: seq<Step>, t: CallId)
    requires Possible(env, s, steps)
    ensures Effect(After(env, s, steps), t) == Effect(s, t) + OpsOf(Linearization(env, s, steps), t)
    decreases |steps|
  {
    if steps != [] {
      var s' := Apply(env, s, steps[0]);
      StepEffect(env, s, steps[0], t);
      RunEffect(env, s', steps[1..], t);
      OpsOfConcat(Emitted(env, s, steps[0]), Linearization(env, s', steps[1..]), t);
    }
  }

  // ---------------------------------------------------------------- main results

  /** Withdrawals are linearizable: doing the operations of a run one after another, in the
      order of its linearization, is possible with exactly the reported outcomes and leads to
      the same tables; each call has exactly the operation its result stands for, none before
      it is invoked and none after its result is fixed. The run may be cut anywhere, so
      an operation of a call finished by then comes before those of calls invoked later. */
  lemma WithdrawalsAreLinearizable(env: Env, s: Ledger, first: seq<Step>, second: seq<Step>)
    requires Inv(env, s) && s.calls == map[] && Possible(env, s, first + second)
    ensures Possible(env, s, first) && Possible(env, After(env, s, first), second)
    ensures var mid, end := After(env, s, first), After(env, s, first + second);
      var before, after := Linearization(env, s, first), Linearization(env, mid, second);
      && Linearization(env, s, first + second) == before + after
      && PerformAll(env, TablesOf(s), before) == Some(TablesOf(mid))
      && PerformAll(env, TablesOf(mid), after) == Some(TablesOf(end))
      && (forall t :: OpsOf(before, t) == Effect(mid, t))
      && (forall t :: OpsOf(before + after, t) == Effect(end, t))
      && (forall t | t !in mid.calls :: OpsOf(before, t) == [])
      && (forall t | t in mid.calls && mid.calls[t].stage.Done? :: OpsOf(after, t) == [])
  {
    RunsCompose(env, s, first, second);
    LinearizationsCompose(env, s, first, After(env, s, first), second);
    var mid := After(env, s, first);
    InvAlways(env, s, first);
    RunIsLinear(env, s, first);
    RunIsLinear(env, mid, second);
    forall t ensures OpsOf(Linearization(env, s, first), t) == Effect(mid, t) {
      RunEffect(env, s, first, t);
    }
    forall t ensures OpsOf(Linearization(env, s, first + second), t) == Effect(After(env, s, first + second), t) {
      RunEffect(env, s, first + second, t);
    }
    forall t | t in mid.calls && mid.calls[t].stage.Done? ensures OpsOf(Linearization(env, mid, second), t) == [] {
      RunEffect(env, mid, second, t);
      DoneStaysDone(env, mid, second, t);
    }
  }

  /** The operation a finished call has in the linearization: the one with its result, a recording if
      it failed with its row in the table, and none if it failed without. */
  lemma OperationsMatchResults(env: Env, s: Ledger, steps: seq<Step>, t: CallId)
    requires s.calls == map[] && Possible(env, s, steps)
    requires t in After(env, s, steps).calls && After(env, s, steps).calls[t].stage.Done?
    ensures var call := After(env, s, steps).calls[t];
      var outcome := call.stage.outcome;
      OpsOf(Linearization(env, s, steps), t)
        == if outcome == Failed(false) then []
           else [WithdrawOp(t, call.request, if outcome == Failed(true) then Recorded else outcome)]
  {
    RunEffect(env, s, steps, t);
  }

  lemma {:induction false} DoneStaysDone(env: Env, s: Ledger, steps: seq<Step>, t: CallId)
    requires Possible(env, s, steps) && t in s.calls && s.calls[t].stage.Done?
    ensures t in After(env, s, steps).calls && After(env, s, steps).calls[t] == s.calls[t]
    decreases |steps|
  {
    if steps != [] {
      assert CallOf(steps[0]) != Some(t);
      OtherCallsUntouched(env, s, steps[0], t);
      DoneStaysDone(env, Apply(env, s, steps[0]), steps[1..], t);
    }
  }

  predicate Settled(stage: Stage) {
    stage.Ending? || stage.Done?
  }

  /** Every result other than a failure is what the sequential rule gives at some instant
      between the call's invocation and its return. */
  lemma {:induction false} ResultIsRuleAtSomeInstant(env: Env, s: Ledger, steps: seq<Step>, t: CallId) returns (k: nat)
    requires Inv(env, s) && Possible(env, s, steps)
    requires t in s.calls ==> !Settled(s.calls[t].stage)
    requires var end := After(env, s, steps);
        t in end.calls && Settled(end.calls[t].stage) && !end.calls[t].stage.outcome.Failed?
    ensures k < |steps| && Possible(env, s, steps[..k])
    ensures var instant, end := After(env, s, steps[..k]), After(env, s, steps);
      && t in instant.calls && !Settled(instant.calls[t].stage) && instant.calls[t].request == end.calls[t].request
      && Rule(env, TablesOf(instant), end.calls[t].request) == end.calls[t].stage.outcome
    decreases |steps|
  {
    var s' := Apply(env, s, steps[0]);
    InvPreserved(env, s, steps[0]);
    if t in s'.calls && Settled(s'.calls[t].stage) {
      k := 0;
      StepIsLinear(env, s, steps[0]);
      SettledStays(env, s', steps[1..], t);
      SettlingStep(env, s, steps[0], t);
    } else {
      var j := ResultIsRuleAtSomeInstant(env, s', steps[1..], t);
      k := j + 1;
      assert steps[..k][1..] == steps[1..][..j];
    }
  }

  lemma {:induction false} SettledStays(env: Env, s: Ledger, steps: seq<Step>, t: CallId)
    requires Possible(env, s, steps) && t in s.calls && Settled(s.calls[t].stage)
    ensures var end := After(env, s, steps);
      t in end.calls && Settled(end.calls[t].stage)
      && end.calls[t].stage.outcome == s.calls[t].stage.outcome && end.calls[t].request == s.calls[t].request
    decreases |steps|
  {
    if steps != [] {
      if CallOf(steps[0]) != Some(t) {
        OtherCallsUntouched(env, s, steps[0], t);
      } else {
        assert steps[0].Rollback?;
      }
      SettledStays(env, Apply(env, s, steps[0]), steps[1..], t);
    }
  }

  /** The step that fixes a call's result fixes it by the rule. */
  lemma SettlingStep(env: Env, s: Ledger, step: Step, t: CallId)
    requires Inv(env, s) && Enabled(env, s, step)
    requires t in s.calls ==> !Settled(s.calls[t].stage)
    requires var s' := Apply(env, s, step);
        t in s'.calls && Settled(s'.calls[t].stage) && !s'.calls[t].stage.outcome.Failed?
    ensures t in s.calls && Apply(env, s, step).calls[t].request == s.calls[t].request
    ensures Rule(env, TablesOf(s), s.calls[t].request) == Apply(env, s, step).calls[t].stage.outcome
  {
    if CallOf(step) != Some(t) {
      OtherCallsUntouched(env, s, step, t);
    } else {
      OwnCall(env, s, step, t);
      SettlingFollowsRule(env, s, step);
    }
  }

  // ---------------------------------------------------------------- which calls fail

  lemma SettlesAs(env: Env, s: Ledger, step: Step, t: CallId)
    requires Owned(env, s) && Enabled(env, s, step) && (t in s.calls ==> !Settled(s.calls[t].stage))
    ensures var s' := Apply(env, s, step);
      if t in s'.calls && Settled(s'.calls[t].stage) then
        && (s'.calls[t].stage.outcome == Failed(false) <==> step == Abort(t))
        && (s'.calls[t].stage.outcome == Failed(true) <==> step == CommitLost(t))
      else step != Abort(t) && step != CommitLost(t)
  {
    if CallOf(step) != Some(t) {
      OtherCallsUntouched(env, s, step, t);
    }
  }

  lemma {:induction false} SettledCallsDoNotFail(env: Env, s: Ledger, steps: seq<Step>, t: CallId)
    requires Possible(env, s, steps) && t in s.calls && Settled(s.calls[t].stage)
    ensures Abort(t) !in steps && CommitLost(t) !in steps
    decreases |steps|
  {
    if steps != [] {
      SettledStays(env, s, steps[..1], t);
      assert steps[..1] == [steps[0]] && [steps[0]][1..] == [];
      assert After(env, s, [steps[0]]) == Apply(env, s, steps[0]);
      SettledCallsDoNotFail(env, Apply(env, s, steps[0]), steps[1..], t);
      assert forall step :: step in steps <==> step == steps[0] || step in steps[1..];
    }
  }

  /** Failures have causes: a call settled on a run has failed if and only if the run aborts it or
      loses the answer to its commit, and it is recorded all the same exactly in the second case. */
  lemma {:induction false} CallsFailExactlyWhenDisturbed(env: Env, s: Ledger, steps: seq<Step>, t: CallId)
    requires Owned(env, s) && Possible(env, s, steps) && (t in s.calls ==> !Settled(s.calls[t].stage))
    ensures var end := After(env, s, steps);
      if t in end.calls && Settled(end.calls[t].stage) then
        && (end.calls[t].stage.outcome == Failed(false) <==> Abort(t) in steps)
        && (end.calls[t].stage.outcome == Failed(true) <==> CommitLost(t) in steps)
      else Abort(t) !in steps && CommitLost(t) !in steps
    decreases |steps|
  {
    if steps != [] {
      var s' := Apply(env, s, steps[0]);
      OwnedPreserved(env, s, steps[0]);
      SettlesAs(env, s, steps[0], t);
      if t in s'.calls && Settled(s'.calls[t].stage) {
        SettledStays(env, s', steps[1..], t);
        SettledCallsDoNotFail(env, s', steps[1..], t);
      } else {
        CallsFailExactlyWhenDisturbed(env, s', steps[1..], t);
      }
      assert forall step :: step in steps <==> step == steps[0] || step in steps[1..];
    }
  }

  /** A call that is neither aborted nor left without its commit's answer has, once settled, exactly
      the result that the tables at some instant inside the call call for. */
  lemma UndisturbedResultsAreRight(env: Env, s: Ledger, steps: seq<Step>, t: CallId) returns (k: nat)
    requires Inv(env, s) && Possible(env, s, steps) && (t in s.calls ==> !Settled(s.calls[t].stage))
    requires Abort(t) !in steps && CommitLost(t) !in steps
    requires var end := After(env, s, steps); t in end.calls && Settled(end.calls[t].stage)
    ensures k < |steps| && Possible(env, s, steps[..k])
    ensures var instant, call := After(env, s, steps[..k]), After(env, s, steps).calls[t];
      var user, number, amount := call.request.user, call.request.number, call.request.amount;
      var d := env.hash(number);
      && t in instant.calls && !Settled(instant.calls[t].stage)
      && match call.stage.outcome
         case Recorded =>
           user in env.users && d !in instant.withdrawals
           && Accrued(instant.orders, user) - Withdrawn(instant.withdrawals, user) >= amount
         case InsufficientFunds =>
           user in env.users && d !in instant.withdrawals
           && Accrued(instant.orders, user) - Withdrawn(instant.withdrawals, user) < amount
         case AlreadyWithdrawn =>
           user in env.users && d in instant.withdrawals && instant.withdrawals[d].number == number
         case DigestCollision =>
           user in env.users && d in instant.withdrawals && instant.withdrawals[d].number != number
         case NoSuchUser => user !in env.users
         case Failed(_) => false
  {
    CallsFailExactlyWhenDisturbed(env, s, steps, t);
    k := ResultIsRuleAtSomeInstant(env, s, steps, t);
  }

  // ---------------------------------------------------------------- what withdrawals leave behind

  predicate IsRecorded(s: Ledger, t: CallId) {
    t in s.calls && s.calls[t].stage.Done? && Leaves(s.calls[t].stage.outcome)
  }

  /** The rows added to the initial withdrawals are those of the recorded calls, one each:
      every other call, however far it got, has left nothing. */
  ghost predicate Accounted(env: Env, initial: map<Digest, WithdrawalRow>, s: Ledger) {
    && (forall d | d in initial :: d in s.withdrawals && s.withdrawals[d] == initial[d])
    && (forall d | d in s.withdrawals && d !in initial ::
          exists t :: IsRecorded(s, t) && s.withdrawals[d] == s.calls[t].request)
    && (forall t | IsRecorded(s, t) ::
          var d := env.hash(s.calls[t].request.number);
          d in s.withdrawals && d !in initial && s.withdrawals[d] == s.calls[t].request)
    && (forall t, u | IsRecorded(s, t) && IsRecorded(s, u) && t != u ::
          env.hash(s.calls[t].request.number) != env.hash(s.calls[u].request.number))
  }

  /** Which calls are recorded changes only at a commit, and then by the committing call. */
  lemma RecordedStep(env: Env, s: Ledger, step: Step, t: CallId)
    requires Owned(env, s) && Enabled(env, s, step)
    ensures IsRecorded(Apply(env, s, step), t)
       <==> IsRecorded(s, t) || ((step.Commit? || step.CommitLost?) && step.t == t)
    ensures IsRecorded(s, t) ==> Apply(env, s, step).calls[t] == s.calls[t]
  {
    if CallOf(step) != Some(t) {
      OtherCallsUntouched(env, s, step, t);
    }
  }

  /** `s'` has the recorded calls of `s` and at most those in `more`. */
  ghost predicate RecordsAtMost(s: Ledger, s': Ledger, more: set<CallId>) {
    && (forall t | IsRecorded(s', t) :: IsRecorded(s, t) || t in more)
    && (forall t | IsRecorded(s, t) :: IsRecorded(s', t) && s'.calls[t] == s.calls[t])
  }

  lemma RecordedSteps(env: Env, s: Ledger, step: Step)
    requires Owned(env, s) && Enabled(env, s, step)
    ensures RecordsAtMost(s, Apply(env, s, step), if step.Commit? || step.CommitLost? then {step.t} else {})
  {
    var s' := Apply(env, s, step);
    forall t
      ensures IsRecorded(s', t) ==> IsRecorded(s, t) || ((step.Commit? || step.CommitLost?) && step.t == t)
      ensures IsRecorded(s, t) ==> IsRecorded(s', t) && s'.calls[t] == s.calls[t]
    {
      RecordedStep(env, s, step, t);
    }
  }

  /** Only a commit changes the table of withdrawals, and it adds the call's row under a new digest. */
  lemma WithdrawalsStep(env: Env, s: Ledger, step: Step)
    requires Owned(env, s) && Enabled(env, s, step)
    ensures var s' := Apply(env, s, step);
      if step.Commit? || step.CommitLost? then
        && IsRecorded(s', step.t) && s'.calls[step.t].request == s.calls[step.t].request
        && var row := s.calls[step.t].request;
           env.hash(row.number) !in s.withdrawals && s'.withdrawals == s.withdrawals[env.hash(row.number) := row]
      else s'.withdrawals == s.withdrawals
  {
    if step.Commit? || step.CommitLost? {
      VisibleRow(env, s, step.t);
    }
  }

  lemma AccountedStep(env: Env, initial: map<Digest, WithdrawalRow>, s: Ledger, step: Step)
    requires Owned(env, s) && Accounted(env, initial, s) && Enabled(env, s, step)
    ensures Accounted(env, initial, Apply(env, s, step))
  {
    var s' := Apply(env, s, step);
    RecordedSteps(env, s, step);
    WithdrawalsStep(env, s, step);
    if step.Commit? || step.CommitLost? {
      AccountedCommit(env, initial, s, s', step.t);
    } else {
      AccountedSame(env, initial, s, s');
    }
  }

  lemma AccountedSame(env: Env, initial: map<Digest, WithdrawalRow>, s: Ledger, s': Ledger)
    requires Accounted(env, initial, s) && s'.withdrawals == s.withdrawals && RecordsAtMost(s, s', {})
    ensures Accounted(env, initial, s')
  {
  }

  lemma AccountedCommit(env: Env, initial: map<Digest, WithdrawalRow>, s: Ledger, s': Ledger, x: CallId)
    requires Accounted(env, initial, s) && RecordsAtMost(s, s', {x}) && IsRecorded(s', x)
    requires var row := s'.calls[x].request;
      s'.withdrawals == s.withdrawals[env.hash(row.number) := row] && env.hash(row.number) !in s.withdrawals
    ensures Accounted(env, initial, s')
  {
    CommitSources(env, initial, s, s', x);
    CommitDigests(env, initial, s, s', x);
  }

  lemma CommitSources(env: Env, initial: map<Digest, WithdrawalRow>, s: Ledger, s': Ledger, x: CallId)
    requires Accounted(env, initial, s) && RecordsAtMost(s, s', {x}) && IsRecorded(s', x)
    requires var row := s'.calls[x].request; s'.withdrawals == s.withdrawals[env.hash(row.number) := row]
    ensures forall d | d in s'.withdrawals && d !in initial ::
              exists t :: IsRecorded(s', t) && s'.withdrawals[d] == s'.calls[t].request
  {
    forall d | d in s'.withdrawals && d !in initial
      ensures exists t :: IsRecorded(s', t) && s'.withdrawals[d] == s'.calls[t].request
    {
      if d == env.hash(s'.calls[x].request.number) {
        assert IsRecorded(s', x);
      } else {
        var t :| IsRecorded(s, t) && s.withdrawals[d] == s.calls[t].request;
        assert IsRecorded(s', t);
      }
    }
  }

  lemma CommitDigests(env: Env, initial: map<Digest, WithdrawalRow>, s: Ledger, s': Ledger, x: CallId)
    requires Accounted(env, initial, s) && RecordsAtMost(s, s', {x}) && IsRecorded(s', x)
    requires var row := s'.calls[x].request;
      s'.withdrawals == s.withdrawals[env.hash(row.number) := row] && env.hash(row.number) !in s.withdrawals
    ensures forall t | IsRecorded(s', t) ::
              var d := env.hash(s'.calls[t].request.number);
              d in s'.withdrawals && d !in initial && s'.withdrawals[d] == s'.calls[t].request
    ensures forall t, u | IsRecorded(s', t) && IsRecorded(s', u) && t != u ::
              env.hash(s'.calls[t].request.number) != env.hash(s'.calls[u].request.number)
  {
    assert !IsRecorded(s, x);
    forall t | IsRecorded(s', t) && t != x
        ensures IsRecorded(s, t) && env.hash(s'.calls[t].request.number) in s.withdrawals {
    }
  }

  /** At the end of every run the withdrawals table holds the initial rows and exactly one row
      for each recorded call; no number is paid for twice, whoever asks. */
  lemma {:induction false} RowsAreThoseOfRecordedCalls(
      env: Env, initial: map<Digest, WithdrawalRow>, s: Ledger, steps: seq<Step>)
    requires Inv(env, s) && Accounted(env, initial, s) && Possible(env, s, steps)
    ensures Accounted(env, initial, After(env, s, steps))
    decreases |steps|
  {
    if steps != [] {
      InvPreserved(env, s, steps[0]);
      AccountedStep(env, initial, s, steps[0]);
      RowsAreThoseOfRecordedCalls(env, initial, Apply(env, s, steps[0]), steps[1..]);
    }
  }

  /** In every reachable state every user's balance reads as nonnegative, and what is left
      and what was withdrawn add up to what was accrued; accrued totals never shrink. */
  lemma {:induction false} BalancesStaySound(env: Env, s: Ledger, steps: seq<Step>, user: UserId)
    requires Inv(env, s) && Possible(env, s, steps)
    ensures var end := After(env, s, steps);
      && Balance(end.orders, end.withdrawals, user) >= 0 && Withdrawn(end.withdrawals, user) >= 0
      && Balance(end.orders, end.withdrawals, user) + Withdrawn(end.withdrawals, user) == Accrued(end.orders, user)
      && Accrued(s.orders, user) <= Accrued(end.orders, user)
      && RowsAdvance(s.orders, end.orders)
    decreases |steps|
  {
    SumNonnegative(s.withdrawals, row => Debit(row, user));
    if steps != [] {
      var s' := Apply(env, s, steps[0]);
      InvPreserved(env, s, steps[0]);
      BalanceStep(env, s, steps[0], user);
      OrdersAdvance(env, s, steps[0]);
      BalancesStaySound(env, s', steps[1..], user);
      AdvancesTransitively(s.orders, s'.orders, After(env, s, steps).orders);
    }
  }

  // ---------------------------------------------------------------- progress

  /** The statements a call still has to execute, at most. */
  function Remaining(call: Call): int {
    match call.stage
    case Begun => 5
    case Locked => 4
    case RowInserted => 3
    case Conflicted => 2
    case Checked => 2
    case Ending(_) => 1
    case Done(_) => 0
  }

  ghost function Work(s: Ledger): int {
    Sum(s.calls, call => Remaining(call))
  }

  lemma WorkNonnegative(s: Ledger)
    ensures Work(s) >= 0
  {
    SumNonnegative(s.calls, call => Remaining(call));
  }

  /** Every step of a call leaves less work; saves and submissions leave as much. */
  lemma StepsReduceWork(env: Env, s: Ledger, step: Step)
    requires Enabled(env, s, step) && !step.Invoke?
    ensures Work(Apply(env, s, step)) <= Work(s) - if CallOf(step).Some? then 1 else 0
  {
    if CallOf(step).Some? {
      var s' := Apply(env, s, step);
      SumPut(s.calls, step.t, s'.calls[step.t], call => Remaining(call));
      assert s'.calls == s.calls[step.t := s'.calls[step.t]];
    }
  }

  /** A step that a call takes when nothing fails. */
  predicate Normal(step: Step) {
    CallOf(step).Some? && !step.Invoke? && !step.Abort? && !step.CommitLost?
  }

  predicate Unfinished(s: Ledger, t: CallId) {
    t in s.calls && !s.calls[t].stage.Done?
  }

  /** The step a call takes next when nothing is in its way. */
  function NextStep(s: Ledger, t: CallId): Step
    requires Unfinished(s, t)
  {
    match s.calls[t].stage
    case Begun => LockOwner(t)
    case Locked => Insert(t)
    case Conflicted => ReadConflict(t)
    case RowInserted => CheckBalance(t)
    case Checked => Commit(t)
    case _ => Rollback(t)
  }

  /** No deadlock: while some call is unfinished, some unfinished call can take its next step. */
  lemma SomeCallCanStep(env: Env, s: Ledger, t: CallId) returns (step: Step)
    requires Owned(env, s) && Unfinished(s, t)
    ensures Normal(step) && Enabled(env, s, step)
  {
    step := NextStep(s, t);
    if step.LockOwner? && !Enabled(env, s, step) {
      var holder := s.locks[s.calls[t].request.user];
      step := StartedCallCanStep(env, s, holder);
    } else if !step.LockOwner? {
      step := StartedCallCanStep(env, s, t);
    }
  }

  /** A call past its lock waits only for an uncommitted row, whose owner waits for nothing. */
  lemma StartedCallCanStep(env: Env, s: Ledger, t: CallId) returns (step: Step)
    requires Owned(env, s) && Unfinished(s, t) && !s.calls[t].stage.Begun?
    ensures Normal(step) && Enabled(env, s, step)
  {
    step := NextStep(s, t);
    if step.Insert? && !Enabled(env, s, step) {
      step := NextStep(s, s.uncommitted[env.hash(s.calls[t].request.number)].0);
    }
  }

  /** From every reachable state the calls can all run to their ends in a bounded number of steps,
      and every call that has not failed yet ends without a failure. */
  lemma AllCallsCanFinish(env: Env, s: Ledger) returns (steps: seq<Step>)
    requires Owned(env, s)
    ensures Possible(env, s, steps) && |steps| <= Work(s)
    ensures forall i | 0 <= i < |steps| :: Normal(steps[i])
    ensures forall t :: !Unfinished(After(env, s, steps), t)
    ensures forall t | t in s.calls && !(Settled(s.calls[t].stage) && s.calls[t].stage.outcome.Failed?) ::
              var end := After(env, s, steps);
              t in end.calls && end.calls[t].stage.Done? && !end.calls[t].stage.outcome.Failed?
  {
    steps := CallsRunToTheirEnds(env, s);
    forall t | t in s.calls && !(Settled(s.calls[t].stage) && s.calls[t].stage.outcome.Failed?)
      ensures var end := After(env, s, steps);
              t in end.calls && end.calls[t].stage.Done? && !end.calls[t].stage.outcome.Failed?
    {
      CallsStay(env, s, steps, t);
      assert !Unfinished(After(env, s, steps), t);
      if Settled(s.calls[t].stage) {
        SettledStays(env, s, steps, t);
      } else {
        CallsFailExactlyWhenDisturbed(env, s, steps, t);
      }
    }
  }

  lemma {:induction false} CallsStay(env: Env, s: Ledger, steps: seq<Step>, t: CallId)
    requires Possible(env, s, steps) && t in s.calls
    ensures t in After(env, s, steps).calls
    decreases |steps|
  {
    if steps != [] {
      CallsStay(env, Apply(env, s, steps[0]), steps[1..], t);
    }
  }

  lemma {:induction false} CallsRunToTheirEnds(env: Env, s: Ledger) returns (steps: seq<Step>)
    requires Owned(env, s)
    ensures Possible(env, s, steps) && |steps| <= Work(s)
    ensures forall i | 0 <= i < |steps| :: Normal(steps[i])
    ensures forall t :: !Unfinished(After(env, s, steps), t)
    decreases Work(s)
  {
    WorkNonnegative(s);
    if t :| Unfinished(s, t) {
      var step := SomeCallCanStep(env, s, t);
      StepsReduceWork(env, s, step);
      OwnedPreserved(env, s, step);
      WorkNonnegative(Apply(env, s, step));
      var rest := CallsRunToTheirEnds(env, Apply(env, s, step));
      steps := [step] + rest;
      assert steps[1..] == rest;
    } else {
      steps := [];
    }
  }

  function CallSteps(steps: seq<Step>): nat {
    if steps == [] then 0 else (if CallOf(steps[0]).Some? then 1 else 0) + CallSteps(steps[1..])
  }

  /** Whatever the schedule, calls cannot go on for longer than their work. */
  lemma {:induction false} CallStepsAreBounded(env: Env, s: Ledger, steps: seq<Step>)
    requires Possible(env, s, steps) && forall i | 0 <= i < |steps| :: !steps[i].Invoke?
    ensures CallSteps(steps) <= Work(s) - Work(After(env, s, steps))
    decreases |steps|
  {
    if steps != [] {
      StepsReduceWork(env, s, steps[0]);
      CallStepsAreBounded(env, Apply(env, s, steps[0]), steps[1..]);
    }
  }
}
