/** The table of orders and the statements that read and write it. */
module Orders {
  import opened Wrappers
  import opened OrderNumber
  import opened Accrual
  import opened Totals

  type UserId = string

  /** Rows are keyed by a fixed-size digest of the number; distinct numbers may share one. */
  type Digest = nat
  type Hash = Number -> Digest

  datatype OrderRow = OrderRow(number: Number, user: UserId, status: OrderStatus, uploadedAt: Time,
                               accrual: Option<int>, nextCheckAt: Time, attempts: int, backoff: Backoff)

  type Rows = map<Digest, OrderRow>

  function NewRow(number: Number, user: UserId, at: Time): OrderRow {
    OrderRow(number, user, New, at, None, at, 0, Long)
  }

  /** INSERT ... ON CONFLICT DO NOTHING. */
  function Inserted(rows: Rows, digest: Digest, row: OrderRow): Rows {
    if digest in rows then rows else rows[digest := row]
  }

  /** Whether the guard of the saving UPDATE lets it through. */
  predicate Accepts(row: OrderRow, u: Update) {
    row.number == u.number && Open(row.status) && !(row.status.Processing? && u.status.New?)
  }

  function Written(row: OrderRow, u: Update): OrderRow {
    row.(status := u.status, accrual := u.accrual, attempts := u.attempts, backoff := u.backoff,
        nextCheckAt := u.nextCheckAt)
  }

  function Saved(rows: Rows, hash: Hash, u: Update): Rows {
    var digest := hash(u.number);
    if digest in rows && Accepts(rows[digest], u) then rows[digest := Written(rows[digest], u)] else rows
  }

  predicate Due(row: OrderRow, now: Time) {
    Open(row.status) && row.nextCheckAt <= now
  }

  function PendingOf(row: OrderRow): Pending {
    Pending(row.number, row.status, row.attempts, row.backoff)
  }

  function Leased(rows: Rows, picked: seq<Digest>, until: Time): Rows {
    map d | d in rows :: if d in picked then rows[d].(nextCheckAt := until) else rows[d]
  }

  /** The rows a claiming statement picks: due rows not locked by another statement, the
      earliest first, as many as there are up to the limit. */
  ghost predicate Picked(rows: Rows, now: Time, limit: int, locked: set<Digest>, picked: seq<Digest>) {
    && (forall i | 0 <= i < |picked| :: picked[i] in rows && Due(rows[picked[i]], now) && picked[i] !in locked)
    && (forall i, j | 0 <= i < j < |picked| :: picked[i] != picked[j])
    && (forall i, j | 0 <= i < j < |picked| :: rows[picked[i]].nextCheckAt <= rows[picked[j]].nextCheckAt)
    && (forall i, d | 0 <= i < |picked| && d in rows && Due(rows[d], now) && d !in locked && d !in picked ::
          rows[picked[i]].nextCheckAt <= rows[d].nextCheckAt)
    && |picked| <= (if limit < 0 then 0 else limit)
    && (|picked| < limit ==> forall d | d in rows && Due(rows[d], now) && d !in locked :: d in picked)
  }

  function PendingsOf(rows: Rows, picked: seq<Digest>): (r: seq<Pending>)
    requires forall i | 0 <= i < |picked| :: picked[i] in rows
    ensures |r| == |picked| && forall i | 0 <= i < |r| :: r[i] == PendingOf(rows[picked[i]])
  {
    seq(|picked|, i requires 0 <= i < |picked| => PendingOf(rows[picked[i]]))
  }

  // ---------------------------------------------------------------- what every statement keeps

  predicate ValidRow(row: OrderRow) {
    && ValidNumber(row.number)
    && 0 <= row.attempts <= MAX_BACKOFF_EXPONENT
    && (row.status.New? ==> row.backoff.Long?)
    && (row.accrual.Some? ==> row.status.Processed? && ValidAccrual(row.accrual.value))
  }

  predicate ValidRows(rows: Rows, hash: Hash) {
    forall d | d in rows :: d == hash(rows[d].number) && ValidRow(rows[d])
  }

  /** How a row may change over time: its identity never, its status forward only, and not
      at all once it is closed. */
  predicate Advances(before: OrderRow, after: OrderRow) {
    && after.number == before.number && after.user == before.user && after.uploadedAt == before.uploadedAt
    && Rank(before.status) <= Rank(after.status)
    && (!Open(before.status) ==> after == before)
  }

  predicate RowsAdvance(before: Rows, after: Rows) {
    forall d | d in before :: d in after && Advances(before[d], after[d])
  }

  lemma AdvancesTransitively(a: Rows, b: Rows, c: Rows)
    requires RowsAdvance(a, b) && RowsAdvance(b, c)
    ensures RowsAdvance(a, c)
  {
  }

  /** What saving does, field by field: an update goes through exactly for an order of this very
      number that is NEW or PROCESSING, except from PROCESSING back to NEW. */
  lemma SaveWritesExactly(rows: Rows, hash: Hash, u: Update)
    ensures var d, rows' := hash(u.number), Saved(rows, hash, u);
      if && d in rows && rows[d].number == u.number
         && (rows[d].status == New || (rows[d].status == Processing && u.status != New))
      then
        && rows'.Keys == rows.Keys && (forall e | e in rows && e != d :: rows'[e] == rows[e])
        && rows'[d] == OrderRow(rows[d].number, rows[d].user, u.status, rows[d].uploadedAt, u.accrual, u.nextCheckAt,
                                u.attempts, u.backoff)
      else rows' == rows
  {
  }

  /** Saving never turns an order back, whatever the update was computed from. */
  lemma SaveAdvances(rows: Rows, hash: Hash, u: Update)
    ensures RowsAdvance(rows, Saved(rows, hash, u))
  {
  }

  lemma SaveKeepsValid(rows: Rows, hash: Hash, u: Update)
    requires ValidRows(rows, hash) && ValidUpdate(u)
    ensures ValidRows(Saved(rows, hash, u), hash)
  {
  }

  lemma InsertAdvances(rows: Rows, digest: Digest, row: OrderRow)
    ensures RowsAdvance(rows, Inserted(rows, digest, row))
  {
  }

  lemma LeaseAdvances(rows: Rows, now: Time, limit: int, locked: set<Digest>, picked: seq<Digest>, until: Time)
    requires Picked(rows, now, limit, locked, picked)
    ensures RowsAdvance(rows, Leased(rows, picked, until))
  {
  }

  // ---------------------------------------------------------------- accrued totals

  /** What an order contributes to a user's accrued total. */
  function Credit(row: OrderRow, user: UserId): int {
    if row.user == user && row.status.Processed? && row.accrual.Some? then row.accrual.value else 0
  }

  ghost function Accrued(rows: Rows, user: UserId): int {
    Sum(rows, row => Credit(row, user))
  }

  /** Saving credits an order at most once: only when it closes the order, and then its accrual. */
  lemma SaveCredits(rows: Rows, hash: Hash, u: Update, user: UserId)
    ensures var d := hash(u.number);
      Accrued(Saved(rows, hash, u), user) == Accrued(rows, user)
        + if && d in rows && rows[d].number == u.number && rows[d].user == user
             && (rows[d].status == New || rows[d].status == Processing)
             && u.status == Processed && u.accrual.Some?
          then u.accrual.value else 0
  {
    var d := hash(u.number);
    if d in rows && Accepts(rows[d], u) {
      SumPut(rows, d, Written(rows[d], u), row => Credit(row, user));
    }
  }

  /** Neither submitting nor leasing an order changes what is accrued. */
  lemma InsertCredits(rows: Rows, digest: Digest, number: Number, at: Time, owner: UserId, user: UserId)
    ensures Accrued(Inserted(rows, digest, NewRow(number, owner, at)), user) == Accrued(rows, user)
  {
    SumPut(rows, digest, NewRow(number, owner, at), row => Credit(row, user));
  }

  lemma LeaseCredits(rows: Rows, picked: seq<Digest>, until: Time, user: UserId)
    ensures Accrued(Leased(rows, picked, until), user) == Accrued(rows, user)
  {
    SumAlike(Leased(rows, picked, until), rows, row => Credit(row, user));
  }

  /** Accrued totals only grow as rows advance and new ones appear. */
  lemma {:induction false} AccruedGrows(before: Rows, after: Rows, user: UserId)
    requires RowsAdvance(before, after)
    requires forall d | d in after :: after[d].accrual.Some? ==> after[d].accrual.value >= 0
    ensures Accrued(before, user) <= Accrued(after, user)
    decreases |before|
  {
    var weight := (row: OrderRow) => Credit(row, user);
    if before == map[] {
      SumNonnegative(after, weight);
    } else {
      var d :| d in before && Sum(before, weight) == weight(before[d]) + Sum(before - {d}, weight);
      SumSplit(after, d, weight);
      AccruedGrows(before - {d}, after - {d}, user);
    }
  }

  // ---------------------------------------------------------------- histories of replies

  /** The table after a history of replies about one order, each to the order as it was last saved. */
  function TableAfter(rows: Rows, hash: Hash, number: Number, history: seq<Reply>): Rows {
    if history == [] then rows
    else
      var before := TableAfter(rows, hash, number, history[..|history| - 1]);
      if hash(number) !in before then before
      else Saved(before, hash, Answered(PendingOf(before[hash(number)]), history[|history| - 1]))
  }

  function Submitted(rows: Rows, hash: Hash, number: Number, user: UserId, at: Time): Rows {
    Inserted(rows, hash(number), NewRow(number, user, at))
  }

  /** The row is `before` with what the pending order `p` has become. */
  predicate StandsAt(rows: Rows, rows': Rows, d: Digest, user: UserId, at: Time, p: Pending) {
    && rows'.Keys == rows.Keys + {d} && (forall e | e in rows && e != d :: rows'[e] == rows[e])
    && PendingOf(rows'[d]) == p && rows'[d].user == user && rows'[d].uploadedAt == at && rows'[d].accrual == None
  }

  /** No save in a history that leaves the order open is turned away: the stored row stands where the
      replies have brought it, the other rows and all accrued totals are as they were. */
  lemma {:induction false} HistoriesAreStored(rows: Rows, hash: Hash, number: Number, user: UserId, at: Time,
                                              history: seq<Reply>, anyone: UserId)
    requires hash(number) !in rows && StaysOpen(history)
    ensures var rows' := TableAfter(Submitted(rows, hash, number, user, at), hash, number, history);
      && StandsAt(rows, rows', hash(number), user, at, Replay(number, history))
      && Open(rows'[hash(number)].status) && Accrued(rows', anyone) == Accrued(rows, anyone)
  {
    if history == [] {
      InsertCredits(rows, hash(number), number, at, user, anyone);
    } else {
      var last := |history| - 1;
      HistoriesAreStored(rows, hash, number, user, at, history[..last], anyone);
      ReplayOpen(number, history[..last]);
      assert StaysOpen(history) && !KindOf(history[last].response).Closing?;
      var before := TableAfter(Submitted(rows, hash, number, user, at), hash, number, history[..last]);
      OpenReplyIsStored(rows, before, hash, number, user, at, Replay(number, history[..last]), history[last], anyone);
    }
  }

  lemma OpenReplyIsStored(rows: Rows, before: Rows, hash: Hash, number: Number, user: UserId, at: Time, p: Pending,
                          reply: Reply, anyone: UserId)
    requires StandsAt(rows, before, hash(number), user, at, p) && p.number == number && Open(p.status)
    requires !KindOf(reply.response).Closing?
    ensures var rows' := Saved(before, hash, Answered(p, reply));
      && StandsAt(rows, rows', hash(number), user, at, PendingAfter(Answered(p, reply)))
      && rows'[hash(number)].nextCheckAt == Answered(p, reply).nextCheckAt
      && Open(rows'[hash(number)].status) && Accrued(rows', anyone) == Accrued(before, anyone)
  {
    KindsOfResponses(reply.response);
    ResponseDecidesStatus(p, reply.response, reply.at, reply.until);
    SaveCredits(before, hash, Answered(p, reply), anyone);
  }

  lemma ReplayOpen(number: Number, history: seq<Reply>)
    requires StaysOpen(history)
    ensures Replay(number, history).number == number && Open(Replay(number, history).status)
  {
    ReplayForm(number, history);
  }

  /** The delay law holds of what the table says from submission onward: after the k-th reply of a
      streak, in nanoseconds. */
  lemma StoredDelayLaw(rows: Rows, hash: Hash, number: Number, user: UserId, at: Time, history: seq<Reply>,
                       reply: Reply)
    requires hash(number) !in rows && StaysOpen(history + [reply]) && !reply.response.RateLimited?
    ensures var after := TableAfter(Submitted(rows, hash, number, user, at), hash, number, history + [reply]);
      var (kind, k) := Streak(history + [reply]);
      && hash(number) in after && k >= 1
      && (kind == Some(Checking) || kind == Some(Missing))
      && (kind == Some(Checking) ==>
            after[hash(number)].nextCheckAt == reply.at + Min(Pow2(k - 1) * 1_000_000_000, 10_000_000_000))
      && (kind == Some(Missing) ==>
            after[hash(number)].nextCheckAt == reply.at + Min(Pow2(k - 1) * 1_000_000_000, 300_000_000_000))
  {
    var all, rows' := history + [reply], Submitted(rows, hash, number, user, at);
    assert all[..|all| - 1] == history;
    StaysOpenBefore(history, reply);
    HistoriesAreStored(rows, hash, number, user, at, history, user);
    ReplayOpen(number, history);
    var before, p := TableAfter(rows', hash, number, history), Replay(number, history);
    OpenReplyIsStored(rows, before, hash, number, user, at, p, reply, user);
    DelayLaw(number, history, reply);
  }

  /** A final answer to an order at any point of its history is written, and credits its owner with
      exactly the reported accrual; nobody else's total changes, nor does an invalid order's owner's. */
  lemma FinalAnswersAreCredited(rows: Rows, hash: Hash, number: Number, user: UserId, at: Time, history: seq<Reply>,
                                reply: Reply, anyone: UserId)
    requires hash(number) !in rows && StaysOpen(history) && reply.response.Answer? && reply.response.result.registered
    requires reply.response.result.status in {CheckProcessed, CheckInvalid}
    ensures var after := TableAfter(Submitted(rows, hash, number, user, at), hash, number, history + [reply]);
      var d, processed := hash(number), reply.response.result.status.CheckProcessed?;
      var accrual := if processed then reply.response.result.accrual else None;
      && d in after && after[d].number == number && after[d].user == user && after[d].uploadedAt == at
      && after[d].status == (if processed then Processed else Invalid) && after[d].accrual == accrual
      && Accrued(after, anyone) == Accrued(rows, anyone) + if anyone == user && accrual.Some? then accrual.value else 0
  {
    var all := history + [reply];
    assert all[..|all| - 1] == history && all[|history|] == reply;
    HistoriesAreStored(rows, hash, number, user, at, history, anyone);
    ReplayOpen(number, history);
    var before := TableAfter(Submitted(rows, hash, number, user, at), hash, number, history);
    FinalReplyIsStored(before, hash, hash(number), reply, anyone);
  }

  lemma FinalReplyIsStored(before: Rows, hash: Hash, d: Digest, reply: Reply, anyone: UserId)
    requires d in before && d == hash(before[d].number) && Open(before[d].status)
    requires reply.response.Answer? && reply.response.result.registered
    requires reply.response.result.status in {CheckProcessed, CheckInvalid}
    ensures var after := Saved(before, hash, Answered(PendingOf(before[d]), reply));
      var processed := reply.response.result.status.CheckProcessed?;
      var accrual := if processed then reply.response.result.accrual else None;
      && d in after && after[d].number == before[d].number && after[d].user == before[d].user
      && after[d].uploadedAt == before[d].uploadedAt
      && after[d].status == (if processed then Processed else Invalid) && after[d].accrual == accrual
      && Accrued(after, anyone)
         == Accrued(before, anyone) + if anyone == before[d].user && accrual.Some? then accrual.value else 0
  {
    var p := PendingOf(before[d]);
    ResponseDecidesStatus(p, reply.response, reply.at, reply.until);
    SaveCredits(before, hash, Answered(p, reply), anyone);
  }

  lemma StaysOpenBefore(history: seq<Reply>, reply: Reply)
    requires StaysOpen(history + [reply])
    ensures StaysOpen(history) && !KindOf(reply.response).Closing?
  {
    var all := history + [reply];
    assert all[|history|] == reply;
    assert forall i | 0 <= i < |history| :: history[i] == all[i];
  }
}
