/** Concurrent submissions of orders: inserting, and on a conflict looking up what is there,
    are separate statements between which other calls and the polling may act. */
module Submissions {
  import opened Wrappers
  import opened OrderNumber
  import opened Accrual
  import opened Orders

  type CallId = nat

  datatype Request = Request(number: Number, user: UserId, at: Time)

  /** What a call reports; a failed call may have inserted its order all the same. */
  datatype Outcome = Created(order: OrderRow) | Existing(order: OrderRow) | OwnedByAnother | Collision | NotFound
      | Failed(inserted: bool)

  datatype Stage = Begun | Conflicting | LookingUp | Done(outcome: Outcome)

  datatype Call = Call(request: Request, stage: Stage)

  datatype State = State(rows: Rows, calls: map<CallId, Call>)

  datatype Step =
    | Invoke(c: CallId, request: Request)
    | Insert(c: CallId)
    | InsertLost(c: CallId)
    | ReadConflict(c: CallId)
    | GetByNumber(c: CallId)
    | Fail(c: CallId)
    | Poll(rows: Rows)

  function NewOrder(request: Request): OrderRow {
    NewRow(request.number, request.user, request.at)
  }

  predicate StageIs(s: State, c: CallId, stage: Stage) {
    c in s.calls && s.calls[c].stage == stage
  }

  /** The polling may change rows as claims and saves do, but adds none. */
  predicate Enabled(hash: Hash, s: State, step: Step) {
    match step
    case Invoke(c, _) => c !in s.calls
    case Insert(c) => StageIs(s, c, Begun)
    case InsertLost(c) => StageIs(s, c, Begun)
    case ReadConflict(c) => StageIs(s, c, Conflicting)
    case GetByNumber(c) => StageIs(s, c, LookingUp)
    case Fail(c) => c in s.calls && !s.calls[c].stage.Done?
    case Poll(rows) => rows.Keys == s.rows.Keys && RowsAdvance(s.rows, rows)
  }

  function At(s: State, c: CallId, stage: Stage): State
    requires c in s.calls
  {
    s.(calls := s.calls[c := s.calls[c].(stage := stage)])
  }

  function Apply(hash: Hash, s: State, step: Step): State
    requires Enabled(hash, s, step)
  {
    match step
    case Invoke(c, request) => s.(calls := s.calls[c := Call(request, Begun)])
    case Insert(c) =>
      var request := s.calls[c].request;
      var d := hash(request.number);
      if d in s.rows then At(s, c, Conflicting)
      else At(s, c, Done(Created(NewOrder(request)))).(rows := Inserted(s.rows, d, NewOrder(request)))
    case InsertLost(c) =>
      var request := s.calls[c].request;
      var d := hash(request.number);
      At(s, c, Done(Failed(d !in s.rows))).(rows := Inserted(s.rows, d, NewOrder(request)))
    case ReadConflict(c) =>
      var d := hash(s.calls[c].request.number);
      At(s, c, if d !in s.rows then Done(Failed(false))
               else if s.rows[d].number != s.calls[c].request.number then Done(Collision)
               else LookingUp)
    case GetByNumber(c) =>
      var request := s.calls[c].request;
      var d := hash(request.number);
      At(s, c, Done(if d !in s.rows || s.rows[d].number != request.number then NotFound
                    else if s.rows[d].user != request.user then OwnedByAnother
                    else Existing(s.rows[d])))
    case Fail(c) => At(s, c, Done(Failed(false)))
    case Poll(rows) => s.(rows := rows)
  }

  ghost predicate Possible(hash: Hash, s: State, steps: seq<Step>)
    decreases |steps|
  {
    steps == [] || (Enabled(hash, s, steps[0]) && Possible(hash, Apply(hash, s, steps[0]), steps[1..]))
  }

  ghost function After(hash: Hash, s: State, steps: seq<Step>): State
    requires Possible(hash, s, steps)
    decreases |steps|
  {
    if steps == [] then s else After(hash, Apply(hash, s, steps[0]), steps[1..])
  }

  /** The surroundings are free: calls begin at any time with any request, insertions may lose their
      answer, any unfinished call may fail, and the polling may change rows as it does. */
  lemma SurroundingsAreFree(hash: Hash, s: State, c: CallId, request: Request, rows: Rows)
    ensures c !in s.calls ==> Enabled(hash, s, Invoke(c, request))
    ensures c in s.calls && s.calls[c].stage == Begun ==>
      Enabled(hash, s, Insert(c)) && Enabled(hash, s, InsertLost(c)) && Enabled(hash, s, Fail(c))
    ensures c in s.calls && s.calls[c].stage in {Conflicting, LookingUp} ==> Enabled(hash, s, Fail(c))
    ensures rows.Keys == s.rows.Keys && RowsAdvance(s.rows, rows) ==> Enabled(hash, s, Poll(rows))
  {
  }

  // ---------------------------------------------------------------- what every run keeps

  predicate SameOrder(a: OrderRow, b: OrderRow) {
    a.number == b.number && a.user == b.user && a.uploadedAt == b.uploadedAt
  }

  /** Whether a call has put its order into the table. */
  predicate Inserter(s: State, c: CallId) {
    c in s.calls && s.calls[c].stage.Done?
        && (s.calls[c].stage.outcome.Created? || s.calls[c].stage.outcome == Failed(true))
  }

  /** What a call's stage says about the row under its digest. */
  predicate CallSound(hash: Hash, rows: Rows, call: Call) {
    var request, d := call.request, hash(call.request.number);
    match call.stage
    case Begun => true
    case Conflicting => d in rows
    case LookingUp => d in rows && rows[d].number == request.number
    case Done(Created(order)) => d in rows && SameOrder(rows[d], order) && order == NewOrder(request)
    case Done(Existing(order)) =>
        d in rows && SameOrder(rows[d], order) && order.number == request.number && order.user == request.user
    case Done(OwnedByAnother) => d in rows && rows[d].number == request.number && rows[d].user != request.user
    case Done(Collision) => d in rows && rows[d].number != request.number
    case Done(NotFound) => false
    case Done(Failed(inserted)) => inserted ==> d in rows && SameOrder(rows[d], NewOrder(request))
  }

  /** The rows added since `initial` are those of the inserting calls, one each. */
  ghost predicate Accounted(hash: Hash, initial: Rows, s: State) {
    && RowsAdvance(initial, s.rows)
    && (forall c | c in s.calls :: CallSound(hash, s.rows, s.calls[c]))
    && (forall c | Inserter(s, c) :: hash(s.calls[c].request.number) !in initial)
    && (forall d | d in s.rows && d !in initial :: exists c :: Inserter(s, c) && hash(s.calls[c].request.number) == d)
    && (forall a, b | Inserter(s, a) && Inserter(s, b) && a != b ::
          hash(s.calls[a].request.number) != hash(s.calls[b].request.number))
  }

  lemma CallStaysSound(hash: Hash, rows: Rows, rows': Rows, call: Call)
    requires CallSound(hash, rows, call) && RowsAdvance(rows, rows')
    ensures CallSound(hash, rows', call)
  {
  }

  lemma StepAdvances(hash: Hash, s: State, step: Step)
    requires Enabled(hash, s, step)
    ensures RowsAdvance(s.rows, Apply(hash, s, step).rows)
  {
  }

  function CallOf(step: Step): Option<CallId> {
    if step.Poll? then None else Some(step.c)
  }

  lemma CallsStaySound(hash: Hash, initial: Rows, s: State, step: Step, c: CallId)
    requires Accounted(hash, initial, s) && Enabled(hash, s, step) && c in Apply(hash, s, step).calls
    ensures CallSound(hash, Apply(hash, s, step).rows, Apply(hash, s, step).calls[c])
  {
    StepAdvances(hash, s, step);
    if CallOf(step) != Some(c) {
      CallStaysSound(hash, s.rows, Apply(hash, s, step).rows, s.calls[c]);
    }
  }

  lemma InsertersStep(hash: Hash, s: State, step: Step, c: CallId)
    requires Enabled(hash, s, step)
    ensures Inserter(s, c) ==> Inserter(Apply(hash, s, step), c) && Apply(hash, s, step).calls[c] == s.calls[c]
    ensures Inserter(Apply(hash, s, step), c) && !Inserter(s, c) ==>
      var d := hash(Apply(hash, s, step).calls[c].request.number);
      CallOf(step) == Some(c) && d !in s.rows && Apply(hash, s, step).rows.Keys == s.rows.Keys + {d}
  {
  }

  lemma NewRowsHaveInserters(hash: Hash, s: State, step: Step, d: Digest)
    requires Enabled(hash, s, step) && d in Apply(hash, s, step).rows && d !in s.rows
    ensures CallOf(step).Some? && Inserter(Apply(hash, s, step), step.c)
    ensures hash(Apply(hash, s, step).calls[step.c].request.number) == d
  {
  }

  lemma AccountedStep(hash: Hash, initial: Rows, s: State, step: Step)
    requires Accounted(hash, initial, s) && Enabled(hash, s, step)
    ensures Accounted(hash, initial, Apply(hash, s, step))
  {
    var s' := Apply(hash, s, step);
    StepAdvances(hash, s, step);
    AdvancesTransitively(initial, s.rows, s'.rows);
    forall c | c in s'.calls ensures CallSound(hash, s'.rows, s'.calls[c]) {
      CallsStaySound(hash, initial, s, step, c);
    }
    forall c | Inserter(s', c) ensures hash(s'.calls[c].request.number) !in initial {
      InsertersStep(hash, s, step, c);
    }
    forall d | d in s'.rows && d !in initial
      ensures exists c :: Inserter(s', c) && hash(s'.calls[c].request.number) == d {
      if d in s.rows {
        var c :| Inserter(s, c) && hash(s.calls[c].request.number) == d;
        InsertersStep(hash, s, step, c);
      } else {
        NewRowsHaveInserters(hash, s, step, d);
      }
    }
    forall a, b | Inserter(s', a) && Inserter(s', b) && a != b
      ensures hash(s'.calls[a].request.number) != hash(s'.calls[b].request.number) {
      InsertersStep(hash, s, step, a);
      InsertersStep(hash, s, step, b);
      if Inserter(s, a) {
        assert CallSound(hash, s.rows, s.calls[a]);
      }
      if Inserter(s, b) {
        assert CallSound(hash, s.rows, s.calls[b]);
      }
    }
  }

  lemma {:induction false} AlwaysAccounted(hash: Hash, initial: Rows, s: State, steps: seq<Step>)
    requires Accounted(hash, initial, s) && Possible(hash, s, steps)
    ensures Accounted(hash, initial, After(hash, s, steps))
    decreases |steps|
  {
    if steps != [] {
      AccountedStep(hash, initial, s, steps[0]);
      AlwaysAccounted(hash, initial, Apply(hash, s, steps[0]), steps[1..]);
    }
  }

  // ---------------------------------------------------------------- main results

  /** The order a call inserted or was told about. */
  predicate Answered(call: Call) {
    && call.stage.Done?
    && (call.stage.outcome.Created? || call.stage.outcome.Existing? || call.stage.outcome.OwnedByAnother?)
  }

  /** However submissions of one new number interleave: at most one call inserts the order, and
      as soon as any call has been answered there is one; the order keeps that call's user and
      time; every other answered call gets this very order if it is its owner and is turned away
      if it is not; none is told that there is no such order. */
  lemma SubmissionsAgree(hash: Hash, s: State, steps: seq<Step>, c: CallId) returns (x: CallId)
    requires s.calls == map[] && Possible(hash, s, steps)
    requires c in After(hash, s, steps).calls && Answered(After(hash, s, steps).calls[c])
    requires hash(After(hash, s, steps).calls[c].request.number) !in s.rows
    ensures var end := After(hash, s, steps);
      && Inserter(end, x) && end.calls[x].request.number == end.calls[c].request.number
      && (forall y | Inserter(end, y) && end.calls[y].request.number == end.calls[c].request.number :: y == x)
    ensures var end := After(hash, s, steps);
      var request, first := end.calls[c].request, end.calls[x].request;
      && hash(request.number) in end.rows
      && var row := end.rows[hash(request.number)];
      && row.number == first.number && row.user == first.user && row.uploadedAt == first.at
      && match end.calls[c].stage.outcome
         case Created(order) =>
           c == x && order == OrderRow(request.number, request.user, New, request.at, None, request.at, 0, Long)
         case Existing(order) =>
           && c != x && request.user == first.user
           && order.number == first.number && order.user == first.user && order.uploadedAt == first.at
         case OwnedByAnother => c != x && request.user != first.user
         case _ => false
  {
    var end := After(hash, s, steps);
    AlwaysAccounted(hash, s.rows, s, steps);
    var d := hash(end.calls[c].request.number);
    assert CallSound(hash, end.rows, end.calls[c]);
    x :| Inserter(end, x) && hash(end.calls[x].request.number) == d;
    assert CallSound(hash, end.rows, end.calls[x]);
    assert SameOrder(end.rows[d], NewOrder(end.calls[x].request));
  }

  /** No statement of the run fails or has its answer lost. */
  predicate Undisturbed(steps: seq<Step>) {
    forall n | 0 <= n < |steps| :: !steps[n].InsertLost? && !steps[n].Fail?
  }

  predicate NoneFailed(s: State) {
    forall c | c in s.calls && s.calls[c].stage.Done? :: !s.calls[c].stage.outcome.Failed?
  }

  lemma {:induction false} UndisturbedCallsDoNotFail(hash: Hash, initial: Rows, s: State, steps: seq<Step>)
    requires Accounted(hash, initial, s) && NoneFailed(s) && Possible(hash, s, steps) && Undisturbed(steps)
    ensures NoneFailed(After(hash, s, steps))
    decreases |steps|
  {
    if steps != [] {
      AccountedStep(hash, initial, s, steps[0]);
      assert steps[0].ReadConflict? ==> CallSound(hash, s.rows, s.calls[steps[0].c]);
      UndisturbedCallsDoNotFail(hash, initial, Apply(hash, s, steps[0]), steps[1..]);
    }
  }

  /** On a run without failures, as soon as any call for a new number has ended without a collision,
      exactly one call has reported that it created the order, and it has. */
  lemma ExactlyOneCreated(hash: Hash, s: State, steps: seq<Step>, c: CallId) returns (x: CallId)
    requires s.calls == map[] && Possible(hash, s, steps) && Undisturbed(steps)
    requires var end := After(hash, s, steps);
      c in end.calls && end.calls[c].stage.Done? && !end.calls[c].stage.outcome.Collision?
    requires hash(After(hash, s, steps).calls[c].request.number) !in s.rows
    ensures var end := After(hash, s, steps);
      var number := end.calls[c].request.number;
      && x in end.calls && end.calls[x].request.number == number
      && var user, at := end.calls[x].request.user, end.calls[x].request.at;
      && end.calls[x].stage == Done(Created(OrderRow(number, user, New, at, None, at, 0, Long)))
      && hash(number) in end.rows && end.rows[hash(number)].number == number
      && end.rows[hash(number)].user == user && end.rows[hash(number)].uploadedAt == at
      && (forall y | y in end.calls && end.calls[y].request.number == number && y != x && end.calls[y].stage.Done? ::
            !end.calls[y].stage.outcome.Created?)
  {
    var end := After(hash, s, steps);
    AlwaysAccounted(hash, s.rows, s, steps);
    UndisturbedCallsDoNotFail(hash, s.rows, s, steps);
    assert CallSound(hash, end.rows, end.calls[c]);
    x := SubmissionsAgree(hash, s, steps, c);
    assert CallSound(hash, end.rows, end.calls[x]);
  }

  /** Whatever the table holds and whatever collides: no call ever reports a missing order, and
      an order once in the table keeps its number, owner and upload time. */
  lemma NeverNotFound(hash: Hash, s: State, steps: seq<Step>)
    requires s.calls == map[] && Possible(hash, s, steps)
    ensures forall c | c in After(hash, s, steps).calls :: After(hash, s, steps).calls[c].stage != Done(NotFound)
    ensures RowsAdvance(s.rows, After(hash, s, steps).rows)
  {
    AlwaysAccounted(hash, s.rows, s, steps);
    var end := After(hash, s, steps);
    forall c | c in end.calls ensures end.calls[c].stage != Done(NotFound) {
      assert CallSound(hash, end.rows, end.calls[c]);
    }
  }

  // ---------------------------------------------------------------- one call alone

  /** The steps of a call that nothing disturbs. */
  function LoneSteps(hash: Hash, rows: Rows, c: CallId, request: Request): seq<Step> {
    var d := hash(request.number);
    [Invoke(c, request)] + ([Insert(c)] +
    if d !in rows then []
    else [ReadConflict(c)] + if rows[d].number == request.number then [GetByNumber(c)] else [])
  }

  lemma First(hash: Hash, s: State, step: Step, rest: seq<Step>)
    requires Enabled(hash, s, step) && Possible(hash, Apply(hash, s, step), rest)
    ensures Possible(hash, s, [step] + rest)
    ensures After(hash, s, [step] + rest) == After(hash, Apply(hash, s, step), rest)
  {
    assert ([step] + rest)[1..] == rest;
  }

  /** The interleaved protocol agrees with `OrderService.Submit`: a call alone has the answer, and
      leaves the table, that the contract of that method states. */
  lemma LoneSubmission(hash: Hash, s: State, c: CallId, request: Request)
    requires c !in s.calls
    ensures var steps, d := LoneSteps(hash, s.rows, c, request), hash(request.number);
      var added := OrderRow(request.number, request.user, New, request.at, None, request.at, 0, Long);
      && Possible(hash, s, steps)
      && var end := After(hash, s, steps);
      && c in end.calls && end.calls[c].stage.Done?
      && var outcome := end.calls[c].stage.outcome;
      && (outcome == Created(added) <==> d !in s.rows)
      && (outcome == Collision <==> d in s.rows && s.rows[d].number != request.number)
      && (outcome == OwnedByAnother <==>
            d in s.rows && s.rows[d].number == request.number && s.rows[d].user != request.user)
      && (d in s.rows && s.rows[d].number == request.number && s.rows[d].user == request.user ==>
            outcome == Existing(s.rows[d]))
      && end.rows == if d in s.rows then s.rows else s.rows[d := added]
  {
    var d := hash(request.number);
    var invoked := Apply(hash, s, Invoke(c, request));
    var inserted := Apply(hash, invoked, Insert(c));
    var rest: seq<Step> := [];
    if d in s.rows {
      var read := Apply(hash, inserted, ReadConflict(c));
      if s.rows[d].number == request.number {
        First(hash, read, GetByNumber(c), []);
        rest := [GetByNumber(c)] + [];
        assert rest == [GetByNumber(c)];
      }
      First(hash, inserted, ReadConflict(c), rest);
      rest := [ReadConflict(c)] + rest;
    }
    First(hash, invoked, Insert(c), rest);
    First(hash, s, Invoke(c, request), [Insert(c)] + rest);
  }
}
