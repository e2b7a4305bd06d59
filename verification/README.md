# Verified model of the loyalty service

Gophermart is a loyalty-points service. Users submit order numbers, a background worker asks an
external accrual system how many points each order earns, and users spend points by withdrawing
them against further order numbers. This project models the parts of the service where its
guarantees are made and proves those guarantees in Dafny 4.11:

- **Order numbers** (`OrderNumber.dfy`): the Luhn loop and what the check detects.
- **Exact money** (`Digits`, `Decimals`, `JsonNumber`, `Amount`, `Numeric`): the parser of
  withdrawal sums against the JSON number grammar of section 6 of RFC 8259 with exact values, the
  two printers, and the conversion of PostgreSQL `NUMERIC` values.
- **The accrual check** (`Accrual.dfy`): the transition of an order on a response, and the law of
  its retry delays.
- **The tables** (`Orders`, `OrderTable`, `Totals`): the rows of orders, the statements on them,
  and what these can and cannot change.
- **The ledger** (`Ledger`, `LedgerRuns`, `BalanceRepository`): withdrawals as transactions of
  several statements that interleave with each other and with the saving of accruals.
- **The polling** (`Polling`, `PollingSafety`, `PollingClaims`, `PollingRuns`, `PollingPause`,
  `PollingLease`, `PollingProgress`, `Worker`): any number of service instances with dispatchers, bounded queues, workers, a pause
  and leases over one table.
- **Submissions** (`Submissions`, `OrderService`): concurrent submissions of the same number.
- **The compressing response writer** (`GzipWriter.dfy`).

`dafny verify dfyconfig.toml` checks everything.

## How the model is built

Code that changes state in place is modelled by classes (`OrderTable`, `BalanceRepository`,
`Worker`, `OrderService`, `GzipResponseWriter`) whose methods are proved against functions on
values. Where the service runs concurrently, the same functions are the steps of a state machine:
a *step* is one SQL statement, one clock reading, one critical section or one channel operation,
and every result about runs quantifies over all finite sequences of enabled steps. Failures are
steps too: statements fail with or without having taken effect, a commit's answer gets lost,
workers drop jobs, instances stop at any moment. `SurroundingsAreFree`, `ClaimsMayFail` and
`JobsMayFail` state that none of this is ruled out.

A statement sees the committed rows and those of its own transaction. Locking a user's row waits
for the holder; inserting under a key waits for an open transaction that has inserted under the
same key. Rows are keyed by the digest of the order number, which is an arbitrary function here:
two numbers may share a digest, and the collision is then reported as the code reports it.

Time is a number of nanoseconds. All instances read one clock that does not go back, but they act
on readings that may be arbitrarily old by then.

### Where the code and its documentation differ

The repository's README says that a 429 answer pauses all requests to the accrual system. The
code falls short of that in two ways.

- It pauses one instance. `PollingPause.OtherInstancesAreNotPaused` says exactly when the others
  start no request before the pause's end: only once that end has come anyway.
- A worker of the paused instance that has passed the pause check may still start its request.
  `PollingPause.PauseStopsRequests` bounds how many do, and
  `PollingPause.PauseIsCompleteExactlyWithoutStragglers` says exactly when none does.

Nothing in the code makes a job end within its lease. `PollingLease.LeasesAreExclusive` is
therefore about runs in which no job outlasts its lease, and
`PollingLease.JobsAreExclusiveExactlyWithinLeases` gives the exact condition for all runs. All
statements about statuses, credits and queues hold without that assumption.

That these shortcomings do occur is shown by runs from an arbitrary state, a database without
instances among them, in which the clock has not fallen behind the zero value of a pause and the
new orders' digests are not taken.

## Model

| member | source | states |
|---|---|---|
| `OrderNumber.ParseNumber` | internal/domain/order/number.go:11-36 | the loop accepts exactly the strings of 1 to 255 digits whose Luhn sum, with doubled digits reduced to the sum of their decimal digits, is a multiple of ten, and returns them unchanged |
| `OrderNumber.LuhnSumByPairs` | internal/domain/order/number.go:18-31 | the sum in the terms of Annex B of ISO/IEC 7812-1: from the right, every second digit counts doubled, less nine if that exceeds nine, and the others as they are |
| `OrderNumber.CheckDigitIsUnique` | internal/domain/order/number.go:18-31 | each prefix of any length is completed by exactly one check digit |
| `OrderNumber.SingleDigitErrorDetected` | internal/domain/order/number.go:18-34 | changing any one digit of a valid number makes it invalid |
| `OrderNumber.TranspositionDetected` | internal/domain/order/number.go:18-34 | swapping two neighbouring digits is accepted if and only if they are equal or are 0 and 9 |
| `OrderNumber.LeadingZerosKeepCheck` | internal/domain/order/number.go:18-31 | leading zeros neither make nor break the checksum |
| `Amounts.IsDigits` | internal/domain/balance/amount.go:84-94 | accepts exactly the nonempty strings of decimal digits |
| `Amounts.ParseExponent` | internal/domain/balance/amount.go:59-82 | accepts exactly optionally signed digit strings of value below 10^18, and returns the signed value, which fits 64 bits |
| `Amounts.ParseSum` | internal/domain/balance/amount.go:24-57 | accepts exactly the unsigned JSON numbers v with 0 < v < 10^18 and 100v whole, for every text below 10^17 characters, and returns exactly 100v; no intermediate exponent leaves 64 bits |
| `JsonNumber.LiteralNumberUnique` | internal/domain/balance/amount.go:25-42 | a text reads as at most one number, so that accepting it and its value are well defined |
| `Amounts.HugeExponent` | internal/domain/balance/amount.go:74-76 | refusing exponents of 10^18 and more refuses no text of admissible length that is a sum |
| `Amounts.PrintedFormsWriteAmount` | internal/domain/balance/amount.go:110-117 | both printed forms of every amount, zero included, are JSON numbers of exactly its value without an exponent; the one has two digits after the point, the compact one none, one or two, as few as the value needs |
| `Amounts.ParserUndoesPrinters` | internal/domain/balance/amount.go:24-57 | for 0 < hundredths < 10^20 both printed forms are sums, of exactly that amount |
| `Amounts.ReparseCompact` | internal/domain/balance/amount.go:110-112 | parsing the compact form gives the amount back |
| `Amounts.CompactIsInjective` | internal/domain/balance/amount.go:110-112 | different amounts have different compact forms |
| `Amounts.CompactIsCanonical` | internal/domain/balance/amount.go:110-112 | two accepted texts lead to the same compact form if and only if they denote the same number |
| `Numerics.AmountFromNumeric` | internal/infrastructure/postgres/balance_repository.go:162-178 | the outcome is a function of the exact number alone, whichever mantissa and exponent write it: 100 times the number, or an error exactly when it is finer than hundredths, negative or not finite |
| `Numerics.QuotientOfTens` | internal/infrastructure/postgres/balance_repository.go:170-176 | truncated division by a power of ten leaves no remainder exactly for multiples, for negative numbers too |
| `Numerics.StoreAndLoad` | internal/infrastructure/postgres/balance_repository.go:158-178 | every amount survives being stored as a numeric and read back |
| `Accrual.RespondKeepsValidity` | internal/application/accrual/decide.go:16-64 | every response to a valid pending order gives an update that passes validation, moves the status forward only, keeps 0 <= attempts <= 20 and NEW implying long backoff, and schedules within one second to five minutes |
| `Accrual.DelayLaw` | internal/application/accrual/decide.go:45-86 | in nanoseconds: after the k-th response of a same-kind streak the delay is min(2^(k-1) * 10^9, 10^10) while the order is being worked on and min(2^(k-1) * 10^9, 3 * 10^11) while it is unknown or cannot be asked about, for all k, with rate limits in between ignored; the counter stops at 20 |
| `Accrual.SaturationIsHarmless` | internal/application/accrual/decide.go:56-86 | stopping the counter at 20 never changes a delay |
| `Orders.StoredDelayLaw` | internal/infrastructure/postgres/accrual_repository.go:84-100 | the same delays, in the same numbers, hold of what the table says after every such history of saves from submission onward |
| `Orders.HistoriesAreStored` | internal/infrastructure/postgres/accrual_repository.go:84-100 | the guard turns no save of a history that leaves the order open away: the row stands where the replies have brought it, and no other row and no accrued total has changed |
| `Orders.FinalAnswersAreCredited` | internal/infrastructure/postgres/accrual_repository.go:84-100 | a final answer at any point of such a history, the first included, is written and raises the owner's accrued total by exactly the reported accrual, and nobody else's |
| `Orders.SaveAdvances` | internal/infrastructure/postgres/accrual_repository.go:90-94 | no save, whatever it was computed from, turns a status back or touches a closed order or anyone's identity |
| `Orders.SaveCredits` | internal/infrastructure/postgres/accrual_repository.go:84-100 | a save raises a user's accrued total by the update's accrual exactly if it reports a NEW or PROCESSING order of that user and number as PROCESSED, and changes no total otherwise |
| `Orders.AccruedGrows` | internal/infrastructure/postgres/balance_repository.go:23-28 | accrued totals never shrink as rows advance and appear |
| `OrderTables.OrderTable.Add` | internal/infrastructure/postgres/order_repository.go:28-66 | unless its digest is taken, inserts exactly a NEW row uploaded and due at the given time with counter 0 and long backoff; tells an existing number from a collision |
| `OrderTables.OrderTable.Earliest` | internal/infrastructure/postgres/accrual_repository.go:32-37 | picks due unlocked rows, earliest first, as many as the limit allows, and leaves out none that is earlier than a picked one |
| `OrderTables.OrderTable.ClaimDue` | internal/infrastructure/postgres/accrual_repository.go:27-64 | leases exactly the picked rows, changes nothing else, and returns them as jobs in order |
| `OrderTables.OrderTable.Claim` | internal/infrastructure/postgres/accrual_repository.go:66-82 | leases and returns one order exactly if it is there, open and due |
| `OrderTables.OrderTable.Save` | internal/infrastructure/postgres/accrual_repository.go:84-100 | a valid update for a row of this very number that is NEW or PROCESSING, and not from PROCESSING to NEW, replaces status, accrual, attempts, backoff and next check and keeps number, owner and upload time; in every other case nothing changes |
| `Ledgers.InvPreserved` | internal/infrastructure/postgres/balance_repository.go:72-109 | every statement of every transaction keeps: one lock holder per user, one uncommitted row per digest and none beside a committed one, no overdrawn user, and funds behind every call that passed its check |
| `Ledgers.VisibleBalance` | internal/infrastructure/postgres/balance_repository.go:99-105 | the balance read after the insert is the committed one less the call's own withdrawal |
| `Ledgers.CheckedStaysFunded` | internal/infrastructure/postgres/balance_repository.go:73-108 | what the check established still holds at the commit, whatever others do in between |
| `LedgerRuns.WithdrawalsAreLinearizable` | internal/infrastructure/postgres/balance_repository.go:58-110 | on every run the operations can be done one after another with exactly the reported outcomes and the same tables; each call has exactly the operation its result stands for, after its invocation and before its return, and the order respects calls that do not overlap |
| `LedgerRuns.OperationsMatchResults` | internal/infrastructure/postgres/balance_repository.go:58-110 | the operation a finished call has in that order: the one with its result, a recording if it failed with its row in the table, and none if it failed without |
| `LedgerRuns.ResultIsRuleAtSomeInstant` | internal/infrastructure/postgres/balance_repository.go:87-109 | every result that is not a failure is what the rule "number used, else too little, else record" gives at an instant inside the call |
| `LedgerRuns.CallsFailExactlyWhenDisturbed` | internal/infrastructure/postgres/balance_repository.go:72-109 | on every run a settled call has failed if and only if the run aborts it or loses the answer to its commit; it is recorded all the same exactly in the second case |
| `LedgerRuns.UndisturbedResultsAreRight` | internal/infrastructure/postgres/balance_repository.go:72-109 | a call that is not disturbed never fails: its result is what the tables say at an instant inside the call, recorded exactly with enough accrued beyond what was withdrawn, and each refusal exactly for its reason |
| `LedgerRuns.RowsAreThoseOfRecordedCalls` | internal/infrastructure/postgres/balance_repository.go:70-109 | the table gains exactly one row per recorded call, with its contents; all other calls leave nothing, and no number is paid for twice |
| `LedgerRuns.BalancesStaySound` | internal/infrastructure/postgres/balance_repository.go:23-55 | in every reachable state every balance is nonnegative, current plus withdrawn is what was accrued, and accrued totals have not shrunk |
| `LedgerRuns.SomeCallCanStep` | internal/infrastructure/postgres/balance_repository.go:72-109 | no deadlock: while a call is unfinished, some unfinished call can take its next step |
| `LedgerRuns.AllCallsCanFinish` | internal/infrastructure/postgres/balance_repository.go:72-109 | from every reachable state all calls can run to their ends, and every call that has not failed yet ends without a failure |
| `LedgerRuns.CallStepsAreBounded` | internal/infrastructure/postgres/balance_repository.go:72-109 | under every schedule the calls begun take no more steps than a measure that each step decreases |
| `BalanceRepositories.BalanceRepository.QueryBalance` | internal/infrastructure/postgres/balance_repository.go:23-33 | sums the user's processed accruals less withdrawals, and the withdrawals |
| `BalanceRepositories.BalanceRepository.GetBalance` | internal/infrastructure/postgres/balance_repository.go:43-56 | returns both amounts exactly, and fails only on a negative one |
| `BalanceRepositories.BalanceRepository.Withdraw` | internal/infrastructure/postgres/balance_repository.go:58-110 | undisturbed, insert-then-check has the result and the effect of the check-then-insert rule, and a refused withdrawal leaves the table as it was |
| `PollingSafety.SavesNeverFailValidation` | internal/application/accrual/accrual.go:91-112 | on every run every row, job and update stays valid, so that no save fails validation |
| `PollingSafety.OrdersOnlyAdvance` | internal/infrastructure/postgres/accrual_repository.go:84-100 | on every run, however stale or duplicated the jobs, orders keep owner and upload time, move forward only and stay as they are once closed, and accrued totals never shrink |
| `PollingSafety.CreditedAtMostOnce` | internal/infrastructure/postgres/accrual_repository.go:90-94 | on every run each order is credited at most once, and not at all once closed |
| `PollingSafety.AccruedIsWhatWasCredited` | internal/infrastructure/postgres/accrual_repository.go:84-100 | on every run a user's accrued total changes by exactly what the saves of that run credit: submissions, claims, refused saves and failures change nothing |
| `PollingSafety.CreditsWereReported` | internal/application/accrual/worker.go:160-183 | an order is only ever credited with an accrual the accrual system reported for that order |
| `PollingSafety.DispatcherNeverBlocks` | internal/application/accrual/worker.go:119-158 | the queue never exceeds its capacity, and whenever the dispatcher has a job to send there is room |
| `PollingSafety.DispatcherGoesOnExactly` | internal/application/accrual/worker.go:119-146 | the dispatcher goes on to claim exactly if its reading is not before the end of the pause and the queue has room, with that reading, for the notified order or for the free slots |
| `PollingSafety.NoOrderIsLost` | internal/application/accrual/worker.go:119-183 | on every run, dropped jobs, failed saves and stopped instances included, every order keeps its row and its next check is never beyond max(clock + max(lease, 5 min), longest pause ever set) |
| `PollingPause.PauseStopsRequests` | internal/application/accrual/worker.go:160-215 | after a 429 has set the pause, at most Workers - 1 requests admitted by an earlier reading still start, on every continuation |
| `PollingPause.PauseIsCompleteExactlyWithoutStragglers` | internal/application/accrual/worker.go:161-165 | no such request starts on any continuation if and only if no worker stood between the check and its request |
| `PollingPause.StragglerOccurs` | internal/application/accrual/worker.go:161-165 | such workers occur: from every state, a run of submissions, claims and requests ends with the pause set just after the other worker has been admitted |
| `PollingPause.OtherInstancesAreNotPaused` | internal/application/accrual/worker.go:198-215 | the other instances start no request admitted before a pause's end, on any run, if and only if that end has come and none of their workers goes by an earlier reading; the pause itself plays no part |
| `PollingPause.PauseIsNotShared` | internal/application/accrual/worker.go:204-215 | setting a pause leaves every other instance as it was, and from there a run exists in which another instance starts a request before the pause's end |
| `PollingLease.LeasesAreExclusive` | internal/infrastructure/postgres/accrual_repository.go:27-82 | over any number of instances, if no job outlasts its lease, each order has at most one live job, its row is unchanged and leased to it, and no claim returns it again |
| `PollingLease.StepKeepsExclusiveExactlyWithinLeases` | internal/infrastructure/postgres/accrual_repository.go:27-82 | any step of any instance keeps jobs exclusive if and only if it is not a claim, of one order or of a batch, answered or lost, that takes a live job's order with a reading at or after the end of its lease |
| `PollingLease.JobsAreExclusiveExactlyWithinLeases` | internal/infrastructure/postgres/accrual_repository.go:27-82 | on every run, jobs are exclusive in every state if and only if no claim of the run is of that kind |
| `PollingLease.ReclaimingEndsExclusive` | internal/infrastructure/postgres/accrual_repository.go:31-76 | such a claim ends exclusivity, and if its answer arrives an order has two live jobs in different places |
| `PollingLease.LateJobsAreDoubled` | internal/infrastructure/postgres/accrual_repository.go:66-82 | it does happen: from every state, an order is submitted, claimed, left in the queue for the length of the lease and claimed again, and has two live jobs |
| `PollingClaims.SavedIsClaimedNext` | internal/infrastructure/postgres/accrual_repository.go:66-100 | whatever happens to other orders after a save, the next claim that takes the order returns what was saved, and it takes it only if it was left open and its time has come; a claim for its notification takes it exactly then |
| `PollingProgress.RoundClaimsOverdue` | internal/infrastructure/postgres/accrual_repository.go:32-41 | while orders are overdue, a claiming round made with a reading past their time takes one of them, whatever everyone else is acting on |
| `PollingProgress.OverdueRoundsAreBounded` | internal/infrastructure/postgres/accrual_repository.go:31-46 | once the clock has passed d, the rounds of a run that find orders overdue at d, and what remains at its end, are at most the orders overdue at the start, the dispatchers and workers still acting on older readings, and the later submissions backdated to d |
| `PollingProgress.DueOrdersAreClaimed` | internal/infrastructure/postgres/accrual_repository.go:31-46 | once the clock has passed the time an order is due, a run that neither claims nor closes it has fewer rounds than that bound |
| `PollingProgress.PastOrdersAreClaimed` | internal/infrastructure/postgres/accrual_repository.go:31-46 | with nothing stale left, no order becomes overdue again, and as many rounds as there are overdue orders claim them all |
| `Workers.Worker.ExtendPause` | internal/application/accrual/worker.go:204-215 | the pause becomes the later of the two ends and is never shortened |
| `Workers.Worker.ClaimDue` | internal/application/accrual/worker.go:119-138 | not paused, it fills exactly the free slots with leased due orders in order; the queue never overflows |
| `Workers.Worker.Claim` | internal/application/accrual/worker.go:140-158 | queues the notified order exactly if it is due, nothing is paused and there is room |
| `Workers.Worker.Process` | internal/application/accrual/worker.go:160-196 | the row and the pause after one job, for every response and every pair of clock readings |
| `Workers.UninterruptedJob` | internal/application/accrual/worker.go:160-215 | the interleaved protocol, undisturbed, does to table and pause what the worker's method does |
| `Workers.UndisturbedTick` | internal/application/accrual/worker.go:119-138 | the protocol's steps of an undisturbed tick leave table and queue as `Worker.ClaimDue` promises: unchanged while the pause lasts or the queue is full, and otherwise with the free slots filled |
| `Workers.UndisturbedNotification` | internal/application/accrual/worker.go:140-158 | and those of an undisturbed notification as `Worker.Claim` promises: the order is queued and leased exactly if it is due, the pause is over and there is room |
| `Submissions.SubmissionsAgree` | internal/application/order/service.go:62-78 | under every interleaving exactly one call inserts a new number, even if its answer is lost; every other answered call gets that order if it is its owner and is turned away if not; owner and upload time stay |
| `Submissions.ExactlyOneCreated` | internal/application/order/service.go:62-78 | on every run without failures, once a call for a new number has ended other than by a collision, exactly one call has reported the order as created, and the row is that call's |
| `Submissions.NeverNotFound` | internal/application/order/service.go:62-74 | with or without collisions, no submission ever reports a missing order |
| `Submissions.LoneSubmission` | internal/application/order/service.go:62-78 | a call whose steps nothing disturbs has the answer and leaves the table that the contract of `OrderService.Submit` states |
| `OrderServices.OrderService.Submit` | internal/application/order/service.go:47-79 | when each result occurs, in terms of user, text and table: created exactly for a free digest, the stored order exactly for its owner, each error exactly for its reason; the table gains the order exactly if it is reported as created, and exactly then the polling is notified |
| `GzipWriters.GzipResponseWriter.WriteHeader` | internal/transport/http/compress_middleware.go:90-99 | keeps the writer in step with the calls made so far: interim codes pass until a final one is given, the first final one is kept |
| `GzipWriters.GzipResponseWriter.Write` | internal/transport/http/compress_middleware.go:101-112 | keeps the writer in step; an empty write does not fix the status |
| `GzipWriters.GzipResponseWriter.Start` | internal/transport/http/compress_middleware.go:114-128 | sends the status once and turns compression on exactly for compressible content that is not encoded yet, with the headers to match |
| `GzipWriters.GzipResponseWriter.Finish` | internal/transport/http/compress_middleware.go:130-138 | at most one final status, the first given before the first nonempty write or 200, and a body that decodes to everything written |
| `GzipWriters.Serve` | internal/transport/http/compress_middleware.go:15-38 | the same for every sequence of calls a handler makes |
| `GzipWriters.Append` | internal/transport/http/compress_middleware.go:90-138 | what one more call changes about status, interim codes, headers and body |

## Left out

- HTTP handlers, routing, authentication, cookies, sessions, JSON decoding, configuration, logging and migrations: they map errors to status codes or are plumbing.
- The HTTP client of the accrual system: a request ends in an arbitrary response with a validated accrual and a nonnegative waiting time, or in a failure.
- SHA-256, password hashing and random tokens: only an arbitrary digest function of the number is kept.
- The conversion of floating-point accruals to NUMERIC(20,2): an accrual is a whole number of hundredths below 10^20 from the response on, and NaN and infinities do not occur.
- Status and backoff texts other than the declared ones: the types of the model have none, so the checks for them in `ValidateUpdate` have no counterpart.
- Validation of a withdrawal before its transaction begins (`NewWithdrawal`): the ledger requires a positive amount and lets the number and time be arbitrary.
- Zero upload times and cancelled contexts: a cancelled call is a failing step.
- `ListByUser` and `ListWithdrawals`: they only read and sort rows.
- SQL planning, indexes and connection pools: statements are modelled by their effect on rows and locks; a claiming statement skips an arbitrary set of rows that others have locked.
- Clocks that differ between instances or go back.
- The bounded notification channel inside `Polling`: there the dispatcher may be notified of any number at any time, which covers what the channel delivers.
- Reading the pause and the free slots in the dispatcher is one step of `Polling`; the claim that follows is another.
- `Accept-Encoding` parsing, decompression of request bodies and the media-type parser: whether content is compressible is an arbitrary test.
- Status 101 counts as one of the 1xx codes that the response writer passes on; that the server ends the HTTP exchange with it is not modelled.
- The bytes of a gzip stream before it is closed: what was written appears, encoded, at the end, and a write to the underlying response does not fail.
- Unicode white space other than the ASCII characters, U+0085 and U+00A0 in user IDs, and lower-casing of letters other than A to Z in sums (neither form of such a text is a number).
- Amounts.ParseSum: texts of 10^17 characters and more, which no machine holds, are not covered.
