/** The repositories of orders, updating one shared table in place. */
module OrderTables {
  import opened Wrappers
  import opened OrderNumber
  import opened Accrual
  import opened Orders

  datatype AddResult = Added | AlreadyExists | HashCollision

  class OrderTable {
    const hash: Hash
    var rows: Rows

    constructor (hash: Hash)
      ensures this.hash == hash && rows == map[]
    {
      this.hash := hash;
      rows := map[];
    }

    /** Inserts a new order; a row already under its digest is compared by number. */
    method Add(number: Number, user: UserId, at: Time) returns (r: AddResult)
      modifies this
      ensures rows == Inserted(old(rows), hash(number), NewRow(number, user, at))
      ensures rows == if hash(number) in old(rows) then old(rows)
                      else old(rows)[hash(number) := OrderRow(number, user, New, at, None, at, 0, Long)]
      ensures r.Added? <==> hash(number) !in old(rows)
      ensures r.AlreadyExists? <==> hash(number) in old(rows) && old(rows)[hash(number)].number == number
    {
      var digest := hash(number);
      if digest !in rows {
        rows := rows[digest := NewRow(number, user, at)];
        return Added;
      }
      var existing := rows[digest].number;
      if existing != number {
        return HashCollision;
      }
      return AlreadyExists;
    }

    method GetByNumber(number: Number) returns (r: Option<OrderRow>)
      ensures r == if hash(number) in rows && rows[hash(number)].number == number
                   then Some(rows[hash(number)]) else None
    {
      var digest := hash(number);
      if digest in rows && rows[digest].number == number {
        return Some(rows[digest]);
      }
      return None;
    }

    /** The earliest due rows that no other statement has locked. */
    method Earliest(now: Time, limit: int, locked: set<Digest>) returns (picked: seq<Digest>)
      ensures Picked(rows, now, limit, locked, picked)
      ensures forall d | d in rows && (rows[d].status == New || rows[d].status == Processing)
                         && rows[d].nextCheckAt <= now && d !in locked ::
                || d in picked
                || (|picked| >= limit && forall e | e in picked :: rows[e].nextCheckAt <= rows[d].nextCheckAt)
      ensures forall d | d in picked ::
                && d in rows && (rows[d].status == New || rows[d].status == Processing)
                && rows[d].nextCheckAt <= now && d !in locked
      ensures forall i, j | 0 <= i < j < |picked| ::
                picked[i] != picked[j] && rows[picked[i]].nextCheckAt <= rows[picked[j]].nextCheckAt
      ensures |picked| <= if limit < 0 then 0 else limit
    {
      picked := [];
      var due := set d | d in rows && Due(rows[d], now) && d !in locked;
      while due != {} && |picked| < limit
        invariant |picked| == 0 || |picked| <= limit
        invariant PartlyPicked(rows, now, locked, picked, due)
        decreases due
      {
        EarliestExists(rows, due);
        var d :| d in due && forall e | e in due :: rows[d].nextCheckAt <= rows[e].nextCheckAt;
        PickNext(rows, now, locked, picked, due, d);
        picked := picked + [d];
        due := due - {d};
      }
    }

    /** Leases the earliest due rows and returns them as jobs. */
    method ClaimDue(now: Time, leaseUntil: Time, limit: int, locked: set<Digest>)
      returns (claimed: seq<Pending>, ghost picked: seq<Digest>)
      modifies this
      ensures Picked(old(rows), now, limit, locked, picked)
      ensures rows == Leased(old(rows), picked, leaseUntil)
      ensures rows.Keys == old(rows).Keys
      ensures forall d | d in rows ::
                rows[d] == if d in picked then old(rows)[d].(nextCheckAt := leaseUntil) else old(rows)[d]
      ensures claimed == PendingsOf(old(rows), picked)
    {
      claimed := [];
      var chosen := Earliest(now, limit, locked);
      picked := chosen;
      var i := 0;
      while i < |chosen|
        invariant 0 <= i <= |chosen|
        invariant claimed == PendingsOf(rows, chosen[..i])
      {
        claimed := claimed + [PendingOf(rows[chosen[i]])];
        i := i + 1;
      }
      rows := Leased(rows, chosen, leaseUntil);
    }

    /** Leases one order, if it is due. */
    method Claim(number: Number, now: Time, leaseUntil: Time) returns (r: Option<Pending>)
      modifies this
      ensures var d := hash(number);
        if && d in old(rows) && old(rows)[d].number == number && old(rows)[d].nextCheckAt <= now
           && (old(rows)[d].status == New || old(rows)[d].status == Processing)
        then
          var row := old(rows)[d];
          && r == Some(Pending(number, row.status, row.attempts, row.backoff))
          && rows == old(rows)[d := row.(nextCheckAt := leaseUntil)]
        else r == None && rows == old(rows)
      ensures r.Some? ==> rows == Leased(old(rows), [hash(number)], leaseUntil)
    {
      var d := hash(number);
      if d in rows && rows[d].number == number && Due(rows[d], now) {
        r := Some(PendingOf(rows[d]));
        rows := rows[d := rows[d].(nextCheckAt := leaseUntil)];
        return;
      }
      return None;
    }

    method Save(update: Update) returns (r: Result<(), UpdateError>)
      modifies this
      ensures r == ValidateUpdate(update)
      ensures rows == if r.Success? then Saved(old(rows), hash, update) else old(rows)
      ensures var d := hash(update.number);
        if && r.Success? && d in old(rows) && old(rows)[d].number == update.number
           && (old(rows)[d].status == New || (old(rows)[d].status == Processing && update.status != New))
        then
          var row := old(rows)[d];
          rows == old(rows)[d := OrderRow(row.number, row.user, update.status, row.uploadedAt, update.accrual,
                                          update.nextCheckAt, update.attempts, update.backoff)]
        else rows == old(rows)
    {
      r := ValidateUpdate(update);
      if r.Failure? {
        return;
      }
      var d := hash(update.number);
      if d in rows && rows[d].number == update.number
         && (rows[d].status.New? || rows[d].status.Processing?)
         && !(rows[d].status.Processing? && update.status.New?) {
        rows := rows[d := Written(rows[d], update)];
      }
    }
  }

  /** The picking loop's progress: `due` holds the rows not picked yet, none earlier than those picked. */
  ghost predicate PartlyPicked(rows: Rows, now: Time, locked: set<Digest>, picked: seq<Digest>, due: set<Digest>) {
    && (forall d :: d in due <==> d in rows && Due(rows[d], now) && d !in locked && d !in picked)
    && (forall i | 0 <= i < |picked| :: picked[i] in rows && Due(rows[picked[i]], now) && picked[i] !in locked)
    && (forall i, j | 0 <= i < j < |picked| :: picked[i] != picked[j])
    && (forall i, j | 0 <= i < j < |picked| :: rows[picked[i]].nextCheckAt <= rows[picked[j]].nextCheckAt)
    && (forall i, d | 0 <= i < |picked| && d in due :: rows[picked[i]].nextCheckAt <= rows[d].nextCheckAt)
  }

  lemma PickNext(rows: Rows, now: Time, locked: set<Digest>, picked: seq<Digest>, due: set<Digest>, d: Digest)
    requires PartlyPicked(rows, now, locked, picked, due)
    requires d in due && forall e | e in due :: rows[d].nextCheckAt <= rows[e].nextCheckAt
    ensures PartlyPicked(rows, now, locked, picked + [d], due - {d})
  {
  }

  lemma {:induction false} EarliestExists(rows: Rows, due: set<Digest>)
    requires due != {} && forall d | d in due :: d in rows
    ensures exists d :: d in due && forall e | e in due :: rows[d].nextCheckAt <= rows[e].nextCheckAt
    decreases due
  {
    var d :| d in due;
    if due != {d} {
      EarliestExists(rows, due - {d});
      var e :| e in due - {d} && forall f | f in due - {d} :: rows[e].nextCheckAt <= rows[f].nextCheckAt;
      var least := if rows[d].nextCheckAt <= rows[e].nextCheckAt then d else e;
      assert forall f | f in due :: f == d || f in due - {d};
      assert least in due && forall f | f in due :: rows[least].nextCheckAt <= rows[f].nextCheckAt;
    }
  }
}
