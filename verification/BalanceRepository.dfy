/** The repository of balances when nothing interferes: the withdrawal inserts its row first,
    checks the balance that includes it, and takes the row back if it was not covered. */
module BalanceRepositories {
  import opened Wrappers
  import opened Amounts
  import opened Numerics
  import opened Orders
  import opened Totals
  import opened Ledgers
  import opened LedgerRuns

  datatype BalanceView = BalanceView(current: Amount, withdrawn: Amount)

  class BalanceRepository {
    const env: Env
    var orders: Rows
    var withdrawals: map<Digest, WithdrawalRow>

    constructor (env: Env)
      ensures this.env == env && orders == map[] && withdrawals == map[]
    {
      this.env := env;
      orders, withdrawals := map[], map[];
    }

    /** The balance query: what is left and what was withdrawn, in hundredths. */
    method QueryBalance(user: UserId) returns (current: Numeric, withdrawn: Numeric)
      ensures current == NumericOf(Balance(orders, withdrawals, user))
      ensures withdrawn == NumericOf(Withdrawn(withdrawals, user))
    {
      var accrued := SumRows(orders, row => Credit(row, user));
      var spent := SumRows(withdrawals, row => Debit(row, user));
      return NumericOf(accrued - spent), NumericOf(spent);
    }

    method GetBalance(user: UserId) returns (r: Result<BalanceView, NumericError>)
      ensures Balance(orders, withdrawals, user) >= 0 && Withdrawn(withdrawals, user) >= 0 ==>
        r == Success(BalanceView(Amount(Balance(orders, withdrawals, user)), Amount(Withdrawn(withdrawals, user))))
      ensures Balance(orders, withdrawals, user) < 0 || Withdrawn(withdrawals, user) < 0 ==> r == Failure(InvalidAmount)
    {
      var currentTotal, withdrawnTotal := QueryBalance(user);
      InHundredths(currentTotal.mantissa.value, -2, currentTotal.mantissa.value);
      InHundredths(withdrawnTotal.mantissa.value, -2, withdrawnTotal.mantissa.value);
      var current := AmountFromNumeric(currentTotal);
      if current.Failure? {
        return Failure(current.error);
      }
      var withdrawn := AmountFromNumeric(withdrawnTotal);
      if withdrawn.Failure? {
        return Failure(withdrawn.error);
      }
      return Success(BalanceView(current.value, withdrawn.value));
    }

    /** Insert-then-check gives the result of check-then-insert. */
    method Withdraw(request: WithdrawalRow) returns (outcome: Outcome)
      requires request.amount > 0
      modifies this
      ensures outcome == Rule(env, Tables(old(orders), old(withdrawals)), request)
      ensures var d := env.hash(request.number);
        var balance := Accrued(old(orders), request.user) - Withdrawn(old(withdrawals), request.user);
        && (outcome == NoSuchUser <==> request.user !in env.users)
        && (outcome == AlreadyWithdrawn <==>
              request.user in env.users && d in old(withdrawals) && old(withdrawals)[d].number == request.number)
        && (outcome == DigestCollision <==>
              request.user in env.users && d in old(withdrawals) && old(withdrawals)[d].number != request.number)
        && (outcome == InsufficientFunds <==>
              request.user in env.users && d !in old(withdrawals) && balance < request.amount)
        && (outcome == Recorded <==>
              request.user in env.users && d !in old(withdrawals) && balance >= request.amount)
      ensures orders == old(orders)
      ensures withdrawals == if outcome.Recorded? then old(withdrawals)[env.hash(request.number) := request]
          else old(withdrawals)
    {
      var digest := env.hash(request.number);
      var committed := withdrawals;
      if request.user !in env.users {
        return NoSuchUser;
      }
      if digest in withdrawals {
        var existing := withdrawals[digest].number;
        if existing != request.number {
          return DigestCollision;
        }
        return AlreadyWithdrawn;
      }
      withdrawals := withdrawals[digest := request];
      SumPut(committed, digest, request, row => Debit(row, request.user));
      var current, _ := QueryBalance(request.user);
      if current.mantissa.value < 0 {
        withdrawals := committed;
        return InsufficientFunds;
      }
      return Recorded;
    }
  }

  method SumRows<V>(rows: map<Digest, V>, weight: V -> int) returns (total: int)
    ensures total == Sum(rows, weight)
  {
    total := 0;
    var rest := rows;
    while rest != map[]
      invariant total + Sum(rest, weight) == Sum(rows, weight)
      decreases |rest|
    {
      var d :| d in rest;
      SumSplit(rest, d, weight);
      total := total + weight(rest[d]);
      rest := rest - {d};
    }
  }

  /** A number of hundredths as the database returns it. */
  function NumericOf(hundredths: int): Numeric {
    Numeric(Some(hundredths), -2, true, false, true)
  }
}
