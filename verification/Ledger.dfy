/** Withdrawals as concurrent transactions against the tables of users, orders and withdrawals.
    Each step is one SQL statement, or the end of a transaction; any call may step next. */
module Ledgers {
  import opened Wrappers
  import opened OrderNumber
  import opened Accrual
  import opened Orders
  import opened Totals

  datatype WithdrawalRow = WithdrawalRow(number: Number, user: UserId, amount: int, processedAt: Time)

  type CallId = nat

  /** What stays fixed: the digest function, which may collide, and the registered users. */
  datatype Env = Env(hash: Hash, users: set<UserId>)

  /** What a call reports. The caller cannot tell whether a failed call was recorded: the
      answer to its COMMIT may have been lost. */
  datatype Outcome = Recorded | AlreadyWithdrawn | InsufficientFunds | DigestCollision | NoSuchUser
      | Failed(recorded: bool)

  /** Where a call stands; in `Ending` its result is fixed and its transaction not yet rolled back. */
  datatype Stage = Begun | Locked | Conflicted | RowInserted | Checked | Ending(outcome: Outcome)
      | Done(outcome: Outcome)

  datatype Call = Call(request: WithdrawalRow, stage: Stage)

  /** `locks` holds the row locks on users, `uncommitted` the withdrawals inserted by open transactions. */
  datatype Ledger = Ledger(orders: Rows, withdrawals: map<Digest, WithdrawalRow>,
                           locks: map<UserId, CallId>, uncommitted: map<Digest, (CallId, WithdrawalRow)>,
                           calls: map<CallId, Call>)

  datatype Step =
    | Submit(number: Number, user: UserId, at: Time)
    | Save(update: Update)
    | Invoke(t: CallId, request: WithdrawalRow)
    | LockOwner(t: CallId)
    | Insert(t: CallId)
    | ReadConflict(t: CallId)
    | CheckBalance(t: CallId)
    | Commit(t: CallId)
    | CommitLost(t: CallId)
    | Rollback(t: CallId)
    | Abort(t: CallId)

  // ---------------------------------------------------------------- statements

  function Debit(row: WithdrawalRow, user: UserId): int {
    if row.user == user then row.amount else 0
  }

  ghost function Withdrawn(withdrawals: map<Digest, WithdrawalRow>, user: UserId): int {
    Sum(withdrawals, row => Debit(row, user))
  }

  /** The first column of the balance query. */
  ghost function Balance(orders: Rows, withdrawals: map<Digest, WithdrawalRow>, user: UserId): int {
    Accrued(orders, user) - Withdrawn(withdrawals, user)
  }

  /** What a statement of call `t` sees: committed rows and its own. */
  function Visible(s: Ledger, t: CallId): map<Digest, WithdrawalRow> {
    s.withdrawals + map d | d in s.uncommitted && s.uncommitted[d].0 == t :: s.uncommitted[d].1
  }

  /** The end of a transaction: its locks and its uncommitted rows go. */
  function Ended(s: Ledger, t: CallId, outcome: Outcome, withdrawals: map<Digest, WithdrawalRow>): Ledger
    requires t in s.calls
  {
    Ledger(s.orders, withdrawals,
           map u | u in s.locks && s.locks[u] != t :: s.locks[u],
           map d | d in s.uncommitted && s.uncommitted[d].0 != t :: s.uncommitted[d],
           s.calls[t := s.calls[t].(stage := Done(outcome))])
  }

  function At(s: Ledger, t: CallId, stage: Stage): Ledger
    requires t in s.calls
  {
    s.(calls := s.calls[t := s.calls[t].(stage := stage)])
  }

  function StageOf(s: Ledger, t: CallId): Option<Stage> {
    if t in s.calls then Some(s.calls[t].stage) else None
  }

  /** Whether a step can happen now. A lock and an insert wait for the transaction in their way. */
  predicate Enabled(env: Env, s: Ledger, step: Step) {
    match step
    case Submit(number, user, at) => true
    case Save(update) => update.accrual.Some? ==> ValidAccrual(update.accrual.value)
    case Invoke(t, request) => t !in s.calls && request.amount > 0
    case LockOwner(t) => StageOf(s, t) == Some(Begun)
        && (s.calls[t].request.user in env.users ==> s.calls[t].request.user !in s.locks)
    case Insert(t) => StageOf(s, t) == Some(Locked) && env.hash(s.calls[t].request.number) !in s.uncommitted
    case ReadConflict(t) => StageOf(s, t) == Some(Conflicted)
    case CheckBalance(t) => StageOf(s, t) == Some(RowInserted)
    case Commit(t) => StageOf(s, t) == Some(Checked)
    case CommitLost(t) => StageOf(s, t) == Some(Checked)
    case Rollback(t) => t in s.calls && s.calls[t].stage.Ending?
    case Abort(t) => t in s.calls && !s.calls[t].stage.Ending? && !s.calls[t].stage.Done?
  }

  ghost function Apply(env: Env, s: Ledger, step: Step): Ledger
    requires Enabled(env, s, step)
  {
    match step
    case Submit(number, user, at) => s.(orders := Inserted(s.orders, env.hash(number), NewRow(number, user, at)))
    case Save(update) => s.(orders := Saved(s.orders, env.hash, update))
    case Invoke(t, request) => s.(calls := s.calls[t := Call(request, Begun)])
    case LockOwner(t) =>
      var user := s.calls[t].request.user;
      if user in env.users then At(s, t, Locked).(locks := s.locks[user := t]) else At(s, t, Ending(NoSuchUser))
    case Insert(t) =>
      var row := s.calls[t].request;
      var digest := env.hash(row.number);
      if digest in s.withdrawals then At(s, t, Conflicted)
      else At(s, t, RowInserted).(uncommitted := s.uncommitted[digest := (t, row)])
    case ReadConflict(t) =>
      var digest := env.hash(s.calls[t].request.number);
      At(s, t, Ending(if digest !in s.withdrawals then Failed(false)
                      else if s.withdrawals[digest].number != s.calls[t].request.number then DigestCollision
                      else AlreadyWithdrawn))
    case CheckBalance(t) =>
      At(s, t, if Balance(s.orders, Visible(s, t), s.calls[t].request.user) < 0
          then Ending(InsufficientFunds) else Checked)
    case Commit(t) => Ended(s, t, Recorded, Visible(s, t))
    case CommitLost(t) => Ended(s, t, Failed(true), Visible(s, t))
    case Rollback(t) => Ended(s, t, s.calls[t].stage.outcome, s.withdrawals)
    case Abort(t) => Ended(s, t, Failed(false), s.withdrawals)
  }

  /** The surroundings are free: orders come and are saved at any time, calls begin at any time with
      any positive amount, and an unsettled call may fail at any time, a commit in two ways. */
  lemma SurroundingsAreFree(env: Env, s: Ledger, number: Number, user: UserId, at: Time, update: Update, t: CallId,
                            request: WithdrawalRow)
    ensures Enabled(env, s, Submit(number, user, at))
    ensures (update.accrual.Some? ==> 0 <= update.accrual.value < 100_000_000_000_000_000_000) ==>
      Enabled(env, s, Save(update))
    ensures t !in s.calls && request.amount > 0 ==> Enabled(env, s, Invoke(t, request))
    ensures t in s.calls && s.calls[t].stage in {Begun, Locked, Conflicted, RowInserted, Checked} ==>
      Enabled(env, s, Abort(t))
    ensures t in s.calls && s.calls[t].stage == Checked ==> Enabled(env, s, Commit(t)) && Enabled(env, s, CommitLost(t))
  {
  }

  // ---------------------------------------------------------------- the invariant

  predicate HoldsLock(stage: Stage) {
    stage.Locked? || stage.Conflicted? || stage.RowInserted? || stage.Checked?
        || (stage.Ending? && !stage.outcome.NoSuchUser?)
  }

  /** Whether a call with this outcome has left its row in the table. */
  predicate Leaves(outcome: Outcome) {
    outcome.Recorded? || outcome == Failed(true)
  }

  predicate HasRow(stage: Stage) {
    stage.RowInserted? || stage.Checked? || (stage.Ending? && stage.outcome.InsufficientFunds?)
  }

  /** Locks belong to the calls at the stages that hold them, and to no others. */
  predicate LocksOwned(s: Ledger) {
    && (forall u | u in s.locks ::
          s.locks[u] in s.calls && HoldsLock(s.calls[s.locks[u]].stage) && s.calls[s.locks[u]].request.user == u)
    && (forall t | t in s.calls && HoldsLock(s.calls[t].stage) ::
          s.calls[t].request.user in s.locks && s.locks[s.calls[t].request.user] == t)
  }

  /** So do uncommitted rows. */
  predicate RowsOwned(env: Env, s: Ledger) {
    && (forall d | d in s.uncommitted :: var (t, row) := s.uncommitted[d];
          t in s.calls && HasRow(s.calls[t].stage) && row == s.calls[t].request && d == env.hash(row.number))
    && (forall t | t in s.calls && HasRow(s.calls[t].stage) ::
          env.hash(s.calls[t].request.number) in s.uncommitted
          && s.uncommitted[env.hash(s.calls[t].request.number)] == (t, s.calls[t].request))
    && (forall d | d in s.uncommitted :: d !in s.withdrawals)
  }

  predicate CallsValid(env: Env, s: Ledger) {
    && (forall t | t in s.calls :: s.calls[t].request.amount > 0)
    && (forall t | t in s.calls && HoldsLock(s.calls[t].stage) :: s.calls[t].request.user in env.users)
    && (forall t | t in s.calls && s.calls[t].stage.Ending? :: !Leaves(s.calls[t].stage.outcome))
    && (forall t | t in s.calls && s.calls[t].stage.Conflicted? :: env.hash(s.calls[t].request.number) in s.withdrawals)
  }

  predicate Owned(env: Env, s: Ledger) {
    LocksOwned(s) && RowsOwned(env, s) && CallsValid(env, s)
  }

  /** Withdrawals are kept under their digests and are positive; accruals are not negative. */
  predicate ValidTables(env: Env, s: Ledger) {
    && (forall d | d in s.orders && s.orders[d].accrual.Some? :: s.orders[d].accrual.value >= 0)
    && (forall d | d in s.withdrawals :: d == env.hash(s.withdrawals[d].number) && s.withdrawals[d].amount > 0)
  }

  /** No user is overdrawn, and a call that passed the check can still afford its withdrawal. */
  ghost predicate Funded(s: Ledger) {
    && (forall u: UserId :: Balance(s.orders, s.withdrawals, u) >= 0)
    && (forall t | t in s.calls && s.calls[t].stage.Checked? ::
          Balance(s.orders, s.withdrawals, s.calls[t].request.user) >= s.calls[t].request.amount)
  }

  ghost predicate Inv(env: Env, s: Ledger) {
    Owned(env, s) && ValidTables(env, s) && Funded(s)
  }

  lemma VisibleRow(env: Env, s: Ledger, t: CallId)
    requires Owned(env, s) && t in s.calls && HasRow(s.calls[t].stage)
    ensures var row := s.calls[t].request; Visible(s, t) == s.withdrawals[env.hash(row.number) := row]
    ensures env.hash(s.calls[t].request.number) !in s.withdrawals
  {
    var digest := env.hash(s.calls[t].request.number);
    forall d | d in s.uncommitted && s.uncommitted[d].0 == t ensures d == digest {
    }
  }

  /** Submissions and saves reach the table of orders as the repositories of orders write it. */
  lemma OrdersWritten(env: Env, s: Ledger, step: Step)
    requires Enabled(env, s, step) && (step.Submit? || step.Save?)
    ensures Apply(env, s, step).withdrawals == s.withdrawals
    ensures step.Submit? && env.hash(step.number) !in s.orders ==>
      Apply(env, s, step).orders
        == s.orders[env.hash(step.number) := OrderRow(step.number, step.user, New, step.at, None, step.at, 0, Long)]
    ensures step.Save? ==>
      var u, d := step.update, env.hash(step.update.number);
      Apply(env, s, step).orders
        == if && d in s.orders && s.orders[d].number == u.number
              && (s.orders[d].status == New || (s.orders[d].status == Processing && u.status != New))
           then s.orders[d := OrderRow(s.orders[d].number, s.orders[d].user, u.status, s.orders[d].uploadedAt,
                                       u.accrual, u.nextCheckAt, u.attempts, u.backoff)]
           else s.orders
  {
  }

  /** A withdrawal under a new digest counts for its owner, in full, and for nobody else. */
  lemma WithdrawalDebits(withdrawals: map<Digest, WithdrawalRow>, d: Digest, row: WithdrawalRow, user: UserId)
    requires d !in withdrawals
    ensures Withdrawn(map[], user) == 0
    ensures Withdrawn(withdrawals[d := row], user)
         == Withdrawn(withdrawals, user) + if row.user == user then row.amount else 0
  {
    SumPut(withdrawals, d, row, r => Debit(r, user));
  }

  /** What the check of a call's own row amounts to: whether the committed balance covers it. */
  lemma VisibleBalance(env: Env, s: Ledger, t: CallId, user: UserId)
    requires Owned(env, s) && t in s.calls && HasRow(s.calls[t].stage)
    ensures Balance(s.orders, Visible(s, t), user)
         == Balance(s.orders, s.withdrawals, user) - Debit(s.calls[t].request, user)
  {
    VisibleRow(env, s, t);
    var row := s.calls[t].request;
    SumPut(s.withdrawals, env.hash(row.number), row, r => Debit(r, user));
  }

  /** Moving on without taking or giving up anything. */
  lemma MoveKeepsOwned(env: Env, s: Ledger, t: CallId, stage: Stage)
    requires Owned(env, s) && t in s.calls
    requires HoldsLock(stage) == HoldsLock(s.calls[t].stage) && HasRow(stage) == HasRow(s.calls[t].stage)
    requires stage.Conflicted? ==> env.hash(s.calls[t].request.number) in s.withdrawals
    requires stage.Ending? ==> !Leaves(stage.outcome)
    ensures Owned(env, At(s, t, stage))
  {
    MoveKeepsLocks(s, t, stage);
    MoveKeepsRows(env, s, t, stage);
  }

  lemma MoveKeepsLocks(s: Ledger, t: CallId, stage: Stage)
    requires LocksOwned(s) && t in s.calls && HoldsLock(stage) == HoldsLock(s.calls[t].stage)
    ensures LocksOwned(At(s, t, stage))
  {
  }

  lemma MoveKeepsRows(env: Env, s: Ledger, t: CallId, stage: Stage)
    requires RowsOwned(env, s) && t in s.calls && HasRow(stage) == HasRow(s.calls[t].stage)
    ensures RowsOwned(env, At(s, t, stage))
  {
  }

  lemma LockKeepsOwned(env: Env, s: Ledger, t: CallId)
    requires Owned(env, s) && StageOf(s, t) == Some(Begun) && s.calls[t].request.user in env.users - s.locks.Keys
    ensures Owned(env, At(s, t, Locked).(locks := s.locks[s.calls[t].request.user := t]))
  {
    LockKeepsLocks(s, t);
    MoveKeepsRows(env, s, t, Locked);
  }

  lemma LockKeepsLocks(s: Ledger, t: CallId)
    requires LocksOwned(s) && StageOf(s, t) == Some(Begun) && s.calls[t].request.user !in s.locks
    ensures LocksOwned(At(s, t, Locked).(locks := s.locks[s.calls[t].request.user := t]))
  {
  }

  lemma InsertKeepsOwned(env: Env, s: Ledger, t: CallId)
    requires Owned(env, s) && StageOf(s, t) == Some(Locked)
    requires var digest := env.hash(s.calls[t].request.number); digest !in s.uncommitted && digest !in s.withdrawals
    ensures var row := s.calls[t].request;
            Owned(env, At(s, t, RowInserted).(uncommitted := s.uncommitted[env.hash(row.number) := (t, row)]))
  {
    MoveKeepsLocks(s, t, RowInserted);
    InsertKeepsRows(env, s, t);
  }

  lemma InsertKeepsRows(env: Env, s: Ledger, t: CallId)
    requires RowsOwned(env, s) && StageOf(s, t) == Some(Locked)
    requires var digest := env.hash(s.calls[t].request.number); digest !in s.uncommitted && digest !in s.withdrawals
    ensures var row := s.calls[t].request;
            RowsOwned(env, At(s, t, RowInserted).(uncommitted := s.uncommitted[env.hash(row.number) := (t, row)]))
  {
  }

  /** Ending a transaction, whether its row is committed or dropped. */
  lemma EndKeepsOwned(env: Env, s: Ledger, t: CallId, outcome: Outcome, withdrawals: map<Digest, WithdrawalRow>)
    requires Owned(env, s) && t in s.calls
    requires withdrawals == s.withdrawals || (HasRow(s.calls[t].stage) && withdrawals == Visible(s, t))
    ensures Owned(env, Ended(s, t, outcome, withdrawals))
  {
    if HasRow(s.calls[t].stage) {
      VisibleRow(env, s, t);
    }
    EndKeepsLocks(s, t, outcome, withdrawals);
    EndKeepsRows(env, s, t, outcome, withdrawals);
  }

  lemma EndKeepsLocks(s: Ledger, t: CallId, outcome: Outcome, withdrawals: map<Digest, WithdrawalRow>)
    requires LocksOwned(s) && t in s.calls
    ensures LocksOwned(Ended(s, t, outcome, withdrawals))
  {
  }

  lemma EndKeepsRows(env: Env, s: Ledger, t: CallId, outcome: Outcome, withdrawals: map<Digest, WithdrawalRow>)
    requires RowsOwned(env, s) && t in s.calls
    requires withdrawals.Keys <= s.withdrawals.Keys
          || (HasRow(s.calls[t].stage)
                && withdrawals.Keys <= s.withdrawals.Keys + {env.hash(s.calls[t].request.number)})
    ensures RowsOwned(env, Ended(s, t, outcome, withdrawals))
  {
  }

  lemma AcquirePreservesOwned(env: Env, s: Ledger, step: Step)
    requires Owned(env, s) && Enabled(env, s, step) && (step.LockOwner? || step.Insert?)
    ensures Owned(env, Apply(env, s, step))
  {
    var t := step.t;
    var row := s.calls[t].request;
    if step.LockOwner? {
      if row.user in env.users {
        LockKeepsOwned(env, s, t);
      } else {
        MoveKeepsOwned(env, s, t, Ending(NoSuchUser));
      }
    } else if env.hash(row.number) in s.withdrawals {
      MoveKeepsOwned(env, s, t, Conflicted);
    } else {
      InsertKeepsOwned(env, s, t);
    }
  }

  lemma ReadPreservesOwned(env: Env, s: Ledger, step: Step)
    requires Owned(env, s) && Enabled(env, s, step) && (step.ReadConflict? || step.CheckBalance?)
    ensures Owned(env, Apply(env, s, step))
  {
    MoveKeepsOwned(env, s, step.t, Apply(env, s, step).calls[step.t].stage);
  }

  lemma EndPreservesOwned(env: Env, s: Ledger, step: Step)
    requires Owned(env, s) && Enabled(env, s, step)
        && (step.Commit? || step.CommitLost? || step.Rollback? || step.Abort?)
    ensures Owned(env, Apply(env, s, step))
  {
    var s' := Apply(env, s, step);
    EndKeepsOwned(env, s, step.t, s'.calls[step.t].stage.outcome, s'.withdrawals);
  }

  lemma OwnedPreserved(env: Env, s: Ledger, step: Step)
    requires Owned(env, s) && Enabled(env, s, step)
    ensures Owned(env, Apply(env, s, step))
  {
    if step.Submit? || step.Save? || step.Invoke? {
      OutsidePreservesOwned(env, s, step);
    } else if step.LockOwner? || step.Insert? {
      AcquirePreservesOwned(env, s, step);
    } else if step.ReadConflict? || step.CheckBalance? {
      ReadPreservesOwned(env, s, step);
    } else {
      EndPreservesOwned(env, s, step);
    }
  }

  lemma OutsidePreservesOwned(env: Env, s: Ledger, step: Step)
    requires Owned(env, s) && Enabled(env, s, step) && (step.Submit? || step.Save? || step.Invoke?)
    ensures Owned(env, Apply(env, s, step))
  {
  }

  lemma TablesPreserved(env: Env, s: Ledger, step: Step)
    requires Owned(env, s) && ValidTables(env, s) && Enabled(env, s, step)
    ensures ValidTables(env, Apply(env, s, step))
  {
    if step.Submit? || step.Save? {
      assert Apply(env, s, step).withdrawals == s.withdrawals;
    } else if step.Commit? || step.CommitLost? {
      VisibleRow(env, s, step.t);
    } else {
      assert Apply(env, s, step).withdrawals == s.withdrawals && Apply(env, s, step).orders == s.orders;
    }
  }

  lemma OrdersAdvance(env: Env, s: Ledger, step: Step)
    requires Enabled(env, s, step)
    ensures RowsAdvance(s.orders, Apply(env, s, step).orders)
  {
    match step
    case Submit(number, user, at) => InsertAdvances(s.orders, env.hash(number), NewRow(number, user, at));
    case Save(update) => SaveAdvances(s.orders, env.hash, update);
    case _ =>
  }

  /** Only a commit lowers a balance, and only that of the withdrawal's owner. */
  lemma BalanceStep(env: Env, s: Ledger, step: Step, user: UserId)
    requires Owned(env, s) && ValidTables(env, s) && Enabled(env, s, step)
    ensures var s' := Apply(env, s, step);
      && Accrued(s'.orders, user) >= Accrued(s.orders, user)
      && Balance(s'.orders, s'.withdrawals, user) >= Balance(s.orders, s.withdrawals, user)
           - if step.Commit? || step.CommitLost? then Debit(s.calls[step.t].request, user) else 0
  {
    OrdersAdvance(env, s, step);
    TablesPreserved(env, s, step);
    AccruedGrows(s.orders, Apply(env, s, step).orders, user);
    if step.Commit? || step.CommitLost? {
      VisibleBalance(env, s, step.t, user);
    }
  }

  lemma FundedPreserved(env: Env, s: Ledger, step: Step)
    requires Inv(env, s) && Enabled(env, s, step)
    ensures Funded(Apply(env, s, step))
  {
    var s' := Apply(env, s, step);
    forall u: UserId ensures Balance(s'.orders, s'.withdrawals, u) >= 0 {
      BalanceStep(env, s, step, u);
    }
    forall t | t in s'.calls && s'.calls[t].stage.Checked?
      ensures Balance(s'.orders, s'.withdrawals, s'.calls[t].request.user) >= s'.calls[t].request.amount
    {
      CheckedStaysFunded(env, s, step, t);
    }
  }

  /** Between the check and the commit the owner's lock keeps other withdrawals out. */
  lemma CheckedStaysFunded(env: Env, s: Ledger, step: Step, t: CallId)
    requires Inv(env, s) && Enabled(env, s, step)
    requires StageOf(Apply(env, s, step), t) == Some(Checked)
    ensures var s' := Apply(env, s, step);
            Balance(s'.orders, s'.withdrawals, s'.calls[t].request.user) >= s'.calls[t].request.amount
  {
    if step.CheckBalance? && step.t == t {
      VisibleBalance(env, s, t, s.calls[t].request.user);
    } else {
      CheckedBefore(env, s, step, t);
      BalanceStep(env, s, step, s.calls[t].request.user);
    }
  }

  lemma CheckedBefore(env: Env, s: Ledger, step: Step, t: CallId)
    requires Owned(env, s) && Enabled(env, s, step)
    requires StageOf(Apply(env, s, step), t) == Some(Checked) && !(step.CheckBalance? && step.t == t)
    ensures StageOf(s, t) == Some(Checked) && Apply(env, s, step).calls[t] == s.calls[t]
    ensures step.Commit? || step.CommitLost? ==> s.calls[step.t].request.user != s.calls[t].request.user
  {
    if step.Commit? || step.CommitLost? {
      assert s.locks[s.calls[step.t].request.user] == step.t && s.locks[s.calls[t].request.user] == t;
    }
  }

  lemma InvPreserved(env: Env, s: Ledger, step: Step)
    requires Inv(env, s) && Enabled(env, s, step)
    ensures Inv(env, Apply(env, s, step))
  {
    OwnedPreserved(env, s, step);
    TablesPreserved(env, s, step);
    FundedPreserved(env, s, step);
  }

  /** An empty database satisfies the invariant. */
  lemma EmptyIsInv(env: Env)
    ensures Inv(env, Ledger(map[], map[], map[], map[], map[]))
  {
    var none: map<Digest, WithdrawalRow> := map[];
    assert forall u: UserId :: Balance(map[], none, u) == 0;
  }
}
