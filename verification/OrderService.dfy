/** The order service: submitting a raw number for a user, and telling the polling about it. */
module OrderServices {
  import opened Wrappers
  import opened Digits
  import opened OrderNumber
  import opened Accrual
  import opened Orders
  import opened OrderTables
  import opened Workers

  datatype SubmitError = InvalidUser | InvalidOrderNumber | OwnedByAnotherUser | NoSuchOrder | CollidingDigest

  datatype Submission = Submission(order: OrderRow, created: bool)

  /** Nothing but white space. */
  predicate Blank(id: UserId) {
    forall i | 0 <= i < |id| :: id[i] in {' ', '\t', '\n', '\U{0B}', '\U{0C}', '\r', '\U{85}', '\U{A0}'}
  }

  predicate IsSpace(c: char) {
    c == ' ' || '\t' <= c <= '\r' || c == '\U{85}' || c == '\U{A0}'
  }

  predicate ValidUser(id: UserId) {
    exists i | 0 <= i < |id| :: !IsSpace(id[i])
  }

  class OrderService {
    const table: OrderTable
    var notifier: Worker?

    constructor (table: OrderTable)
      ensures this.table == table && notifier == null
    {
      this.table := table;
      notifier := null;
    }

    method WithNotifier(worker: Worker)
      modifies this
      ensures notifier == worker
    {
      notifier := worker;
    }

    method Submit(user: UserId, rawNumber: string, at: Time) returns (r: Result<Submission, SubmitError>)
      requires notifier != null ==> notifier.table == table
      modifies table, if notifier == null then {} else {notifier}
      ensures var d, before := table.hash(rawNumber), old(table.rows);
        var valid := 1 <= |rawNumber| <= 255 && AllDigits(rawNumber) && LuhnSum(rawNumber, 0) % 10 == 0;
        && (r == Failure(InvalidUser) <==> Blank(user))
        && (r == Failure(InvalidOrderNumber) <==> !Blank(user) && !valid)
        && (r == Failure(CollidingDigest) <==> !Blank(user) && valid && d in before && before[d].number != rawNumber)
        && (r == Failure(OwnedByAnotherUser) <==>
              !Blank(user) && valid && d in before && before[d].number == rawNumber && before[d].user != user)
        && r != Failure(NoSuchOrder)
        && (r.Success? && !r.value.created <==>
              !Blank(user) && valid && d in before && before[d].number == rawNumber && before[d].user == user)
        && (r.Success? && !r.value.created ==> r.value.order == before[d])
        && (r.Success? && r.value.created <==> !Blank(user) && valid && d !in before)
        && (r.Success? && r.value.created ==> r.value.order == OrderRow(rawNumber, user, New, at, None, at, 0, Long))
      ensures r.Success? ==> r.value.order.user == user && r.value.order.number == rawNumber
      ensures table.rows == if r.Success? && r.value.created
                            then old(table.rows)[table.hash(rawNumber) := r.value.order]
                            else old(table.rows)
      ensures notifier != null ==>
        && notifier.jobs == old(notifier.jobs) && notifier.pausedUntil == old(notifier.pausedUntil)
        && notifier.notifications == old(notifier.notifications)
             + if r.Success? && r.value.created && |old(notifier.notifications)| < notifier.notifyBuffer
               then [rawNumber] else []
    {
      if !ValidUser(user) {
        return Failure(InvalidUser);
      }
      var parsed := ParseNumber(rawNumber);
      if parsed.Failure? {
        return Failure(InvalidOrderNumber);
      }
      var number := parsed.value;
      var added := table.Add(number, user, at);
      if !added.Added? {
        if !added.AlreadyExists? {
          return Failure(CollidingDigest);
        }
        var existing := table.GetByNumber(number);
        if existing.None? {
          return Failure(NoSuchOrder);
        }
        if existing.value.user != user {
          return Failure(OwnedByAnotherUser);
        }
        return Success(Submission(existing.value, false));
      }
      if notifier != null {
        notifier.Notify(number);
      }
      return Success(Submission(NewRow(number, user, at), true));
    }
  }
}
