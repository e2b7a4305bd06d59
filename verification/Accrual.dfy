/** The accrual check of an order: what the external system may answer, how an answer
    changes the order, and when the order is asked about again. */
module Accrual {
  import opened Wrappers
  import opened OrderNumber

  /** Points in time and durations, in nanoseconds. */
  type Time = int

  const SECOND: Time := 1_000_000_000
  const BACKOFF_BASE := SECOND
  const SHORT_BACKOFF_CAP := 10 * SECOND
  const LONG_BACKOFF_CAP := 300 * SECOND
  const MAX_BACKOFF_EXPONENT := 20

  /** Accruals are counted in hundredths; they stay below 10^18 points. */
  const MAX_ACCRUAL := 100_000_000_000_000_000_000

  datatype OrderStatus = New | Processing | Invalid | Processed

  predicate Open(status: OrderStatus) {
    status.New? || status.Processing?
  }

  datatype Backoff = Short | Long

  /** A status reported by the accrual system. */
  datatype CheckStatus = CheckRegistered | CheckInvalid | CheckProcessing | CheckProcessed | CheckUnknown(text: string)

  datatype CheckResult = CheckResult(registered: bool, status: CheckStatus, accrual: Option<int>)

  /** The outcome of one request to the accrual system. */
  datatype Response = Answer(result: CheckResult) | FetchFailed | RateLimited(retryAfter: Time)

  datatype Pending = Pending(number: Number, status: OrderStatus, attempts: int, backoff: Backoff)

  datatype Update = Update(number: Number, status: OrderStatus, accrual: Option<int>, attempts: int,
                           backoff: Backoff, nextCheckAt: Time)

  datatype UpdateError = BadNumber | BadAccrual | BadAttempts

  predicate ValidAccrual(value: int) {
    0 <= value < MAX_ACCRUAL
  }

  function ValidateUpdate(update: Update): Result<(), UpdateError> {
    if !ValidNumber(update.number) then Failure(BadNumber)
    else if update.accrual.Some? && !ValidAccrual(update.accrual.value) then Failure(BadAccrual)
    else if update.attempts < 0 then Failure(BadAttempts)
    else Success(())
  }

  /** An update is refused exactly if its number is none, its accrual is negative or 10^18 points
      or more, or its counter is negative. */
  lemma RefusedUpdates(update: Update)
    ensures ValidateUpdate(update).Success? <==>
      && ValidNumber(update.number) && update.attempts >= 0
      && (update.accrual.Some? ==> 0 <= update.accrual.value < 100_000_000_000_000_000_000)
  {
  }

  // ---------------------------------------------------------------- the transition

  function Pow2(k: nat): nat {
    if k == 0 then 1 else 2 * Pow2(k - 1)
  }

  function Min(a: int, b: int): int {
    if a <= b then a else b
  }

  function NextAttempts(attempts: int): int {
    if attempts < 0 then 1
    else if attempts >= MAX_BACKOFF_EXPONENT then MAX_BACKOFF_EXPONENT
    else attempts + 1
  }

  function BackoffDelay(attempts: int, limit: Time): Time {
    var exponent: nat := if attempts < 0 then 0
        else if attempts > MAX_BACKOFF_EXPONENT then MAX_BACKOFF_EXPONENT else attempts;
    var delay := BACKOFF_BASE * Pow2(exponent);
    if delay > limit then limit else delay
  }

  function LongRetry(update: Update, p: Pending, now: Time): Update {
    var base := if p.backoff.Long? then p.attempts else 0;
    update.(backoff := Long, attempts := NextAttempts(base), nextCheckAt := now + BackoffDelay(base, LONG_BACKOFF_CAP))
  }

  /** The update that an answer, or the failure to get one, causes. */
  function Decide(p: Pending, result: Option<CheckResult>, now: Time): Update {
    var update := Update(p.number, p.status, None, 0, p.backoff, 0);
    if result.None? || !result.value.registered then
      LongRetry(update, p, now)
    else
      match result.value.status
      case CheckProcessed => update.(status := Processed, accrual := result.value.accrual, nextCheckAt := now)
      case CheckInvalid => update.(status := Invalid, nextCheckAt := now)
      case CheckUnknown(_) => LongRetry(update, p, now)
      case _ =>
        var attempts := if p.status.Processing? && p.backoff.Short? then NextAttempts(p.attempts) else 0;
        update.(status := Processing, backoff := Short, attempts := attempts,
                nextCheckAt := now + BackoffDelay(attempts, SHORT_BACKOFF_CAP))
  }

  /** The update that postpones an order to the end of a pause and changes nothing else. */
  function Postpone(p: Pending, until: Time): Update {
    Update(p.number, p.status, None, p.attempts, p.backoff, until)
  }

  /** The update for a response; `until` is the end of the pause a rate limit leads to. */
  function Respond(p: Pending, response: Response, now: Time, until: Time): Update {
    match response
    case RateLimited(_) => Postpone(p, until)
    case FetchFailed => Decide(p, None, now)
    case Answer(result) => Decide(p, Some(result), now)
  }

  // ---------------------------------------------------------------- what every order keeps

  /** A response the accrual client can deliver: its accrual has been validated. */
  predicate ValidResponse(response: Response) {
    match response
    case Answer(result) => result.accrual.Some? ==> ValidAccrual(result.accrual.value)
    case RateLimited(retryAfter) => retryAfter >= 0
    case FetchFailed => true
  }

  predicate ValidPending(p: Pending) {
    ValidNumber(p.number) && Open(p.status) && 0 <= p.attempts <= MAX_BACKOFF_EXPONENT
        && (p.status.New? ==> p.backoff.Long?)
  }

  /** What holds of every update, and so of every row an update is saved to. */
  predicate ValidUpdate(u: Update) {
    && ValidNumber(u.number)
    && 0 <= u.attempts <= MAX_BACKOFF_EXPONENT
    && (u.status.New? ==> u.backoff.Long?)
    && (u.accrual.Some? ==> u.status.Processed? && ValidAccrual(u.accrual.value))
  }

  function Rank(status: OrderStatus): nat {
    match status case New => 0 case Processing => 1 case _ => 2
  }

  lemma {:induction false} Pow2Monotone(a: nat, b: nat)
    requires a <= b
    ensures 1 <= Pow2(a) <= Pow2(b)
  {
    if a < b {
      Pow2Monotone(a, b - 1);
    } else if a > 0 {
      Pow2Monotone(a - 1, b - 1);
    }
  }

  lemma Pow2Of20()
    ensures Pow2(20) == 1_048_576
  {
    assert Pow2(5) == 32;
    assert Pow2(10) == 1024;
    assert Pow2(15) == 32_768;
  }

  lemma DelayBounds(attempts: int, limit: Time)
    requires SECOND <= limit
    ensures SECOND <= BackoffDelay(attempts, limit) <= limit
  {
    var exponent: nat := if attempts < 0 then 0
        else if attempts > MAX_BACKOFF_EXPONENT then MAX_BACKOFF_EXPONENT else attempts;
    Pow2Monotone(0, exponent);
  }

  lemma LongRetryShape(update: Update, p: Pending, now: Time)
    requires 0 <= p.attempts <= MAX_BACKOFF_EXPONENT
    ensures var u := LongRetry(update, p, now);
      && u == update.(backoff := Long, attempts := u.attempts, nextCheckAt := u.nextCheckAt)
      && 0 <= u.attempts <= MAX_BACKOFF_EXPONENT && now + SECOND <= u.nextCheckAt <= now + LONG_BACKOFF_CAP
  {
    DelayBounds(if p.backoff.Long? then p.attempts else 0, LONG_BACKOFF_CAP);
  }

  lemma DecideShape(p: Pending, result: Option<CheckResult>, now: Time)
    requires 0 <= p.attempts <= MAX_BACKOFF_EXPONENT && Open(p.status)
    ensures var u := Decide(p, result, now);
      && u.number == p.number && 0 <= u.attempts <= MAX_BACKOFF_EXPONENT
      && (u.status.New? ==> u.backoff.Long?) && Rank(p.status) <= Rank(u.status)
      && (u.accrual.Some? ==> u.status.Processed? && result.Some? && u.accrual == result.value.accrual)
      && (if Open(u.status) then now + SECOND <= u.nextCheckAt <= now + LONG_BACKOFF_CAP else u.nextCheckAt == now)
  {
    LongRetryShape(Update(p.number, p.status, None, 0, p.backoff, 0), p, now);
    DelayBounds(if p.status.Processing? && p.backoff.Short? then NextAttempts(p.attempts) else 0, SHORT_BACKOFF_CAP);
  }

  /** Every response to a valid pending order leads to a valid update that moves the order
      forward only, to a later time unless it closes the order. */
  lemma RespondKeepsValidity(p: Pending, response: Response, now: Time, until: Time)
    requires ValidPending(p) && ValidResponse(response)
    ensures var u := Respond(p, response, now, until);
      && ValidUpdate(u) && ValidateUpdate(u).Success? && 0 <= u.attempts <= 20
      && u.number == p.number && Rank(p.status) <= Rank(u.status)
      && (Open(u.status) && !response.RateLimited? ==>
            now + 1_000_000_000 <= u.nextCheckAt <= now + 300_000_000_000)
      && (!Open(u.status) ==> u.nextCheckAt == now)
      && (response.RateLimited? ==> u.nextCheckAt == until)
  {
    match response
    case RateLimited(_) =>
    case FetchFailed => DecideShape(p, None, now);
    case Answer(result) => DecideShape(p, Some(result), now);
  }

  // ---------------------------------------------------------------- the delay law

  datatype Kind = Checking | Missing | Limiting | Closing

  function KindOf(response: Response): Kind {
    match response
    case RateLimited(_) => Limiting
    case FetchFailed => Missing
    case Answer(result) =>
      if !result.registered then Missing
      else match result.status
           case CheckProcessed => Closing
           case CheckInvalid => Closing
           case CheckUnknown(_) => Missing
           case _ => Checking
  }

  /** What a response says about the order itself: a final answer closes it, with the reported
      accrual if it was processed; work in progress makes it PROCESSING; anything else leaves
      it as it was. Only a processed order carries an accrual. */
  lemma ResponseDecidesStatus(p: Pending, response: Response, now: Time, until: Time)
    ensures var u := Respond(p, response, now, until);
      u.number == p.number &&
      match response
      case Answer(CheckResult(true, CheckProcessed, accrual)) =>
        && u.status == Processed && u.accrual == accrual
        && u.attempts == 0 && u.backoff == p.backoff && u.nextCheckAt == now
      case Answer(CheckResult(true, CheckInvalid, _)) =>
        && u.status == Invalid && u.accrual == None
        && u.attempts == 0 && u.backoff == p.backoff && u.nextCheckAt == now
      case Answer(CheckResult(true, CheckRegistered, _)) =>
        u.status == Processing && u.accrual == None && u.backoff == Short
      case Answer(CheckResult(true, CheckProcessing, _)) =>
        u.status == Processing && u.accrual == None && u.backoff == Short
      case RateLimited(_) => u == Update(p.number, p.status, None, p.attempts, p.backoff, until)
      case _ => u.status == p.status && u.accrual == None && u.backoff == Long
  {
  }

  /** The kinds in terms of the responses. */
  lemma KindsOfResponses(response: Response)
    ensures KindOf(response).Limiting? <==> response.RateLimited?
    ensures KindOf(response).Closing? <==>
      response.Answer? && response.result.registered && response.result.status in {CheckProcessed, CheckInvalid}
    ensures KindOf(response).Checking? <==>
      response.Answer? && response.result.registered && response.result.status in {CheckRegistered, CheckProcessing}
  {
  }

  /** A response, the clock reading when it is turned into an update, and the end of the
      pause if it is a rate limit. */
  datatype Reply = Reply(response: Response, at: Time, until: Time)

  /** The current streak of a history: its kind, and how many responses it has,
      not counting rate limits. */
  function Streak(history: seq<Reply>): (Option<Kind>, nat) {
    if history == [] then (None, 0)
    else Extended(Streak(history[..|history| - 1]), KindOf(history[|history| - 1].response))
  }

  function Extended(streak: (Option<Kind>, nat), kind: Kind): (Option<Kind>, nat) {
    if kind.Limiting? then streak
    else if streak.0 == Some(kind) then (streak.0, streak.1 + 1)
    else (Some(kind), 1)
  }

  predicate StaysOpen(history: seq<Reply>) {
    forall i | 0 <= i < |history| :: !KindOf(history[i].response).Closing?
  }

  /** A history stays open exactly if none of its replies is final. */
  lemma OpenHistories(history: seq<Reply>, reply: Reply)
    ensures StaysOpen([])
    ensures var final := reply.response.Answer? && reply.response.result.registered
                         && reply.response.result.status in {CheckProcessed, CheckInvalid};
      StaysOpen(history + [reply]) <==> StaysOpen(history) && !final
  {
    var all := history + [reply];
    assert all[|history|] == reply && forall i | 0 <= i < |history| :: history[i] == all[i];
  }

  function Fresh(number: Number): Pending {
    Pending(number, New, 0, Long)
  }

  function PendingAfter(u: Update): Pending {
    Pending(u.number, u.status, u.attempts, u.backoff)
  }

  function Answered(p: Pending, reply: Reply): Update {
    Respond(p, reply.response, reply.at, reply.until)
  }

  /** The order as it stands after a history of responses, each saved before the next request. */
  function Replay(number: Number, history: seq<Reply>): Pending {
    if history == [] then Fresh(number)
    else PendingAfter(Answered(Replay(number, history[..|history| - 1]), history[|history| - 1]))
  }

  function Cap(kind: Kind): Time {
    if kind.Checking? then SHORT_BACKOFF_CAP else LONG_BACKOFF_CAP
  }

  /** Rows reached by replay, in closed form: the stored counter saturates, the streak does not. */
  predicate StreakForm(number: Number, p: Pending, streak: (Option<Kind>, nat)) {
    match streak.0
    case None => p == Fresh(number) && streak.1 == 0
    case Some(Checking) => p == Pending(number, Processing, Min(streak.1 - 1, MAX_BACKOFF_EXPONENT), Short)
        && streak.1 >= 1
    case Some(Missing) => p == Pending(number, p.status, Min(streak.1, MAX_BACKOFF_EXPONENT), Long) && streak.1 >= 1
        && Open(p.status)
    case Some(_) => false
  }

  lemma StreakFormStep(number: Number, p: Pending, streak: (Option<Kind>, nat), reply: Reply)
    requires StreakForm(number, p, streak) && !KindOf(reply.response).Closing?
    ensures StreakForm(number, PendingAfter(Answered(p, reply)), Extended(streak, KindOf(reply.response)))
  {
  }

  lemma {:induction false} ReplayForm(number: Number, history: seq<Reply>)
    requires StaysOpen(history)
    ensures StreakForm(number, Replay(number, history), Streak(history))
  {
    if history != [] {
      var before := history[..|history| - 1];
      ReplayForm(number, before);
      StreakFormStep(number, Replay(number, before), Streak(before), history[|history| - 1]);
    }
  }

  /** Counters outside 0 to 20, which are never stored, count as the nearer end. */
  lemma CountersAreClamped(attempts: int, limit: Time)
    ensures NextAttempts(attempts) == if attempts <= 0 then 1 else if attempts >= 20 then 20 else attempts + 1
    ensures BackoffDelay(attempts, limit)
         == Min(Pow2(if attempts <= 0 then 0 else if attempts >= 20 then 20 else attempts) * 1_000_000_000, limit)
  {
  }

  lemma SaturationIsHarmless(k: nat, limit: Time)
    requires SECOND <= limit <= LONG_BACKOFF_CAP
    ensures BackoffDelay(Min(k, MAX_BACKOFF_EXPONENT), limit) == Min(Pow2(k) * SECOND, limit)
  {
    if k > MAX_BACKOFF_EXPONENT {
      Pow2Of20();
      Pow2Monotone(20, k);
    }
  }

  /** The delay after the k-th response of a streak is 2^(k-1) seconds, capped at 10 seconds
      while the accrual system works on the order and at 5 minutes while it does not know it.
      Rate limits in between are as if they had not happened. The counter stops at 20. */
  lemma DelayLaw(number: Number, history: seq<Reply>, reply: Reply)
    requires StaysOpen(history + [reply]) && !reply.response.RateLimited?
    ensures var (kind, k) := Streak(history + [reply]);
      var u := Answered(Replay(number, history), reply);
      && k >= 1 && kind == Some(KindOf(reply.response)) && (kind == Some(Checking) || kind == Some(Missing))
      && (kind == Some(Checking) ==>
            && u.nextCheckAt == reply.at + Min(Pow2(k - 1) * 1_000_000_000, 10_000_000_000)
            && u.attempts == Min(k - 1, 20))
      && (kind == Some(Missing) ==>
            && u.nextCheckAt == reply.at + Min(Pow2(k - 1) * 1_000_000_000, 300_000_000_000)
            && u.attempts == Min(k, 20))
  {
    DelayByCap(number, history, reply);
    var all := history + [reply];
    assert all[..|history|] == history && all[|history|] == reply;
    ReplayForm(number, all);
    assert Replay(number, all) == PendingAfter(Answered(Replay(number, history), reply));
  }

  lemma DelayByCap(number: Number, history: seq<Reply>, reply: Reply)
    requires StaysOpen(history + [reply]) && !reply.response.RateLimited?
    ensures var (kind, k) := Streak(history + [reply]);
      && kind == Some(KindOf(reply.response)) && k >= 1
      && Answered(Replay(number, history), reply).nextCheckAt == reply.at + Min(Pow2(k - 1) * SECOND, Cap(kind.value))
  {
    var all := history + [reply];
    assert all[..|history|] == history && all[|history|] == reply;
    assert StaysOpen(history) by {
      assert forall i | 0 <= i < |history| :: history[i] == all[i];
    }
    ReplayForm(number, history);
    var kind, k := KindOf(reply.response), Streak(all).1;
    assert Streak(all) == Extended(Streak(history), kind);
    SaturationIsHarmless(k - 1, Cap(kind));
    DelayAtForm(Replay(number, history), reply.response, reply.at, reply.until, k);
  }

  lemma DelayAtForm(p: Pending, response: Response, now: Time, until: Time, k: nat)
    requires k >= 1
    requires KindOf(response).Checking? && p.status.Processing? && p.backoff.Short?
        ==> p.attempts == Min(k - 2, MAX_BACKOFF_EXPONENT) && k >= 2
    requires KindOf(response).Checking? && !(p.status.Processing? && p.backoff.Short?) ==> k == 1
    requires KindOf(response).Missing? ==>
          if p.backoff.Long? then p.attempts == Min(k - 1, MAX_BACKOFF_EXPONENT) else k == 1
    requires KindOf(response).Checking? || KindOf(response).Missing?
    ensures Respond(p, response, now, until).nextCheckAt
         == now + BackoffDelay(Min(k - 1, MAX_BACKOFF_EXPONENT), Cap(KindOf(response)))
  {
  }
}
