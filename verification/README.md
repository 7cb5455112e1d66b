# Wallet service: a verified model

A Dafny model of the money-movement core of the wallet service, and proofs of what it promises.

Two parts of the service are modelled in full.

**The money-movement protocol.** `Topup`, `Pay`, `Transfer`, `SuspendWallet` and `CreateWallet` run
concurrently over per-wallet mutexes, a lock-free key lookup, `SELECT ... FOR UPDATE` row locks, a compared balance
update, a unique idempotency key and commit or rollback. The model has three layers:

- `Ledger` is the *atomic machine*: the committed wallets and ledger, and whole requests applied at one instant. `Meaning`
  says in terms of rows, amounts and entries alone what each request does, when it applies and why it is refused.
- `Protocol` is the *concurrent machine*: any number of processes, each with its own mutex table, and any number
  of calls, each at one line of `wallet/service.go` with its locals, held mutexes, locked rows and unpublished
  writes. A step is one line that touches shared state. Storage faults, crashes of a process, broken connections
  (the call returns and unlocks while the server still holds its transaction), the server's rollback of a dead
  connection, commits whose reply is lost and commits that land after a crash or a broken connection are steps too.
- `LockTable`, `Postgres` and `Service` are the same code as classes and methods that update their fields,
  run from the first line to the last, proved against the functions of the other two layers.

The proofs connect the layers. `Invariant`, `Refinement` and `Preservation` prove that each step of the concurrent machine is
one whole action of the atomic machine or changes nothing in the database; `Guarantees`, `Replays`, `Retries`, `Answers`, `SingleProcess`,
`Suspension`, `Race`, `Deadlock` and `Completion` lift this to all runs; `Realization` and `Refusals` prove the converse;
`LateCommits` says exactly when a suspended wallet can still change; `Limits` has reachable states that show where the
guarantees end. "One process at a time" below means that at every point the live calls are of one process: a single
instance that may crash and be restarted.

**Decimal text and int64 amounts.** `Money` has the parser and the printer with Go's wrap-around and truncation
written out (`Int64`); `MoneyProofs` relates them to the real number an amount string denotes.

`dafny verify dfyconfig.toml` checks everything.

## Where the code and its documentation differ

The model follows the code.

- The repository's README.md (lines 238-241) says rupiah amounts are rounded to the nearest rupiah, and service.go:431-434 that amounts that
  come to nothing are rejected. The rupiah branch truncates and has no such check (service.go:459-488). `RupiahExact` says
  exactly which amounts agree with the documentation; `HalfRupiah` is one that does not.
- `whole*smallestUnitFactor` (service.go:483) is unchecked, so exactness holds up to int64 and no further: `ParseExact`, `OversizedAmount`.
- The credit of a transfer (service.go:344) is unchecked. `ExactInEveryRun`: no balance is ever wrong or negative if and only
  if every committed transfer's credit fits int64, which is the check that is missing. `BalancesInEveryRun`: in any
  state a balance is right if and only if its ledger sum fits int64, so always while the topups do, and the ledger sum itself is never
  negative. `CreditCanWrap` reaches a state where a balance is wrong.
- The repository's README.md (lines 278-281) promises the same result for the same key. A replay compares the key only and
  answers with the recorded wallet as it is now; `ErrIdempotencyConflict` is never produced. What is proved is "no further
  effect" (`AtMostOnce`, `ExactlyOnce`), and that a success or replay is right about the caller's own request exactly when the
  entry recorded under the key is the one the request would write (`ReplayIsOwn`), so always when the key is used for
  nothing else (`OwnRequestOnce`). `ReplayOfAnotherRequest` is a replay that answers for another request. A transfer also
  uses up its key plus `-credit`.
- service.go:384-388 says that after a suspension every operation is rejected. That holds for transfers with any
  number of processes (`AfterSuspension`) and, once the call has returned success, for everything with one process at a time, restarts
  included (`FrozenAfterSuspend`). With several processes a topup or payment that read the wallet before can still commit
  (`TopUpCanComeLate`): `SuspendedCanChange` says exactly when.
- postgres.go:428-433 documents ErrOptimisticLock as a rare outcome of a race. `ComparisonInEveryRun` says exactly when
  a topup or payment meets it, `RaceLostToOutsider` who must have committed in between, `TopUpCanLoseTheRace` and
  `RestartCanLoseTheRace` that two processes, or one restart, are enough. Transfers never meet it.
- Consistent lock order prevents deadlocks between transfers (postgres.go:337-342). A topup or payment inserts its key
  before it locks its row, so with two processes it can close a cycle: `CrossProcessDeadlock`. `JamInEveryRun` says that any
  calls that wait for each other, whatever else is running, include one caught like this by a call of another process;
  so transfers and suspensions alone never wait in a cycle (`NoJamWithoutDeltas`), nor do live calls of one process
  (`NoJamInOneProcess`).
- service.go:273-276 says a transfer is validated before its transaction opens. It is validated inside, on the locked rows
  (service.go:306-343), and that is what `TransferNeverLosesTheRace` rests on.
- The repository's README.md (line 316) names a second migration for the unique (owner, currency) constraint; it is in the first. The comment on NULLIF
  (postgres.go:390-392) does not fit the key column, which is NOT NULL and stores an empty key as it is.

## Model

| member | source | states |
|---|---|---|
| MoneyProofs.ParseNumeric | wallet/service.go:438-491 | on every numeric string, the parser's result in terms of the real number written: nothing for negatives and whole parts beyond int64, otherwise the true amount wrapped to int64, and outside rupiah only when that is positive |
| MoneyProofs.ParseExact | wallet/service.go:424-491 | the result is floor(100v + 1/2), or floor(v) in rupiah, if and only if the string is not negative and the amount fits int64 and, outside rupiah, is not zero; an amount that fits is otherwise rejected |
| MoneyProofs.ParseMonotone | wallet/service.go:459-490 | of two accepted strings of any shape, while the larger amount fits int64, the one that denotes no more is parsed to no more |
| MoneyProofs.RupiahExact | wallet/service.go:431-437 | a rupiah amount is the nearest rupiah exactly when its first fraction digit is below 5, and positive exactly when its whole part has a non-zero digit |
| MoneyProofs.HalfRupiah | wallet/service.go:459-490 | "0.5" is accepted in rupiah, as zero, which is not the nearest rupiah |
| MoneyProofs.OversizedAmount | wallet/service.go:483 | beyond int64 the wrapped amount is what is accepted |
| MoneyProofs.SpacesIgnored | wallet/service.go:439 | white space around an amount, any amount of it, changes nothing |
| MoneyProofs.BlanksIgnored | wallet/service.go:439 | so in particular blanks, tabs and line ends |
| MoneyProofs.AcceptedStrings | wallet/service.go:440-457 | of any string whatever, an accepted one has no minus sign and a whole part of digits that fits int64; in rupiah those are accepted, as that number |
| MoneyProofs.ThreeDigitsDecide | wallet/service.go:466-475 | three fraction digits decide the half-up rounding of a fraction of any length |
| MoneyProofs.PadKeepsValue | wallet/service.go:463-465 | the padding loop multiplies the fraction by a power of ten and so keeps its value |
| MoneyProofs.ToCentsWraps | wallet/service.go:477-487 | carry, remainder, product and sum in wrapping arithmetic amount to one wrap of the exact number of cents |
| MoneyProofs.RoundTrip | wallet/wallet.go:77-95 | every int64 amount from 1 (from 0 in rupiah) is printed as a numeric string that parses to the same amount |
| MoneyProofs.PrintedApart | wallet/wallet.go:77-95 | no two int64 balances print alike, negative ones included |
| MoneyProofs.PrintedSign | wallet/wallet.go:78-86 | the text starts with a minus sign exactly for negative balances |
| MoneyProofs.PrintedNumeric | wallet/wallet.go:77-95 | a balance is printed as a numeric string if and only if it is not the least int64, which negation leaves negative |
| MoneyProofs.PrintedExactly | wallet/wallet.go:77-95 | a balance that is not negative is printed as its exact amount: two decimals, none in rupiah, no leading zero |
| MoneyProofs.PrintedNegative | wallet/wallet.go:78-86 | a negative balance above the least int64 is printed as a minus sign and a text that parses to exactly the amount owed |
| MoneyProofs.PrintedLeast | wallet/wallet.go:78-94 | the text of the least int64: its digits, two minus signs in front and, outside rupiah, one before the last |
| MoneyProofs.Canonical | wallet/wallet.go:69-95 | printing an accepted amount gives a text with two decimals (none in rupiah) that parses to the same amount |
| Money.ParseAmountToCents | wallet/service.go:438-491 | the statements and the padding loop compute the function the theorems above are about, on every string |
| Money.RoundToCents | wallet/service.go:466-490 | the rounding half, with its updates of the fraction and the whole part, computes the specified cents |
| Meaning.TopupMeaning | wallet/service.go:219-256 | a topup applies if and only if it parses, the sum fits int64 and the key is unused; it adds the amount and appends one topup entry, field by field |
| Meaning.PaymentMeaning | wallet/service.go:219-256 | a payment applies if and only if it parses, the balance covers it and the key is unused; it takes the amount and appends one payment entry of minus the amount |
| Meaning.TransferMeaning | wallet/service.go:317-373 | a transfer applies if and only if wallets, status, currency, owners, amount, balance and both keys allow it; both rows and both entries, field by field |
| Meaning.SuspendMeaning | storage/postgres/postgres.go:193-206 | a suspension sets the status of an existing wallet and nothing else |
| Meaning.OpenMeaning | wallet/service.go:145-151 | a new wallet is empty and active and the owner's only one in its currency |
| Meaning.DeltaReasons | wallet/service.go:211-228 | a topup or payment is refused for a reason if and only if the wallet, its status, the amount and the balance give that reason, in the order of the checks |
| Meaning.TransferReasons | wallet/service.go:312-343 | the same for a transfer: missing wallet, amount, status, currency, owner, balance |
| Meaning.NotCoveredOnSound | wallet/service.go:224-228 | on a balance that has not wrapped, insufficient means that the payment exceeds it or the sum exceeds int64 |
| LedgerProofs.WrappedTestIsEnough | wallet/service.go:224-228 | with a stored balance that is not negative, the one test for a negative int64 rejects exactly the overdrafts and the overflows, and what passes is the exact sum |
| LedgerProofs.TransferExact | wallet/service.go:340-344 | on exact balances a transfer leaves them exact and not negative if and only if the credited balance fits int64 |
| LedgerProofs.ActionExact | wallet/service.go:224-228 | the same for every request: topups and payments always leave balances exact |
| LedgerProofs.SumsBounded | wallet/service.go:225-228 | a wallet's ledger sum is never negative and never more than the topups of its currency, even where balances have wrapped |
| LedgerProofs.BalanceExact | wallet/service.go:340-344 | and the cached balance is that sum if and only if the sum fits int64 |
| LedgerProofs.Conservation | wallet/service.go:346-371 | the ledger sums of a currency's wallets add up to its topups minus its payments; so do their balances, modulo 2^64 always and exactly while the topups fit int64 |
| LedgerProofs.OrderIndependent | wallet/ledger.go:18-25 | ledgers with the same entries in any order give the same balances |
| LedgerProofs.DebitHasOneCredit | wallet/service.go:346-365 | each debit leg has exactly one credit leg: key plus suffix, opposite amount, same currency, crossed wallets, different owners |
| LedgerProofs.CreditHasOneDebit | wallet/service.go:346-365 | each credit leg has exactly one debit leg |
| LedgerProofs.HistoryExact | storage/postgres/postgres.go:233-264 | a wallet's entries in commit order: each as often as the ledger has it, and nothing else |
| LedgerProofs.HistorySum | storage/postgres/postgres.go:221-231 | a wallet's listed history adds up to its ledger sum |
| AtomicProofs.ApplyKeeps | migrations/000001_create_inital_schema.up.sql:19-54 | every whole request keeps reconciliation, unique keys, one wallet per owner and currency, paired legs that cancel, and no momentary overdraft |
| AtomicProofs.OneMoreCovered | wallet/service.go:225-228 | an entry whose debit passed the check on the balance, wrapped or not, leaves every ledger sum at zero or above |
| AtomicProofs.KeysAppliedOnce | migrations/000001_create_inital_schema.up.sql:40 | no two applied actions write a common key |
| AtomicProofs.KeysComeFromActions | storage/postgres/postgres.go:394-416 | every key in the ledger was written by some applied action |
| Refinement.CommitIsAtomic | storage/postgres/postgres.go:458-460 | a commit publishes exactly its whole request applied to the rows as they are at that instant, also for a balance read before the transaction began |
| Refinement.CommitRespects | storage/postgres/postgres.go:434-456 | a commit disturbs nothing another open call relies on |
| Preservation.TransferCompareKeeps | storage/postgres/postgres.go:446-448 | a transfer's balance comparison cannot fail, since its rows have been locked since they were read |
| Preservation.AppendExclusive | migrations/000001_create_inital_schema.up.sql:40 | an insert that did not have to wait gives no two open transactions the same key |
| Preservation.LockRowExclusive | storage/postgres/postgres.go:343-387 | a row lock that did not have to wait is held by nobody else |
| Preservation.StepRefines | wallet/service.go:198-374 | one step of the concurrent machine keeps the invariant and changes the database by one whole action or not at all |
| Guarantees.RunRefines | wallet/service.go:198-394 | refinement: in every run, with crashes, faults and lost replies, the database is what the atomic machine makes of the committed requests in commit order |
| Guarantees.EveryRunIsAtomic | wallet/service.go:198-394 | the same from the empty deployment on: what every run leaves in the database is what its committed requests do one after another |
| Guarantees.BalancesInEveryRun | wallet/service.go:240-253 | in every reachable state a wallet's ledger sum is between zero and the topups of its currency, and its balance is that sum if and only if the sum fits int64 |
| Guarantees.ExactInEveryRun | wallet/service.go:340-344 | over every run no balance is ever wrong or negative if and only if every committed transfer's credit fitted int64 |
| Guarantees.ConservationInEveryRun | wallet/service.go:325-371 | in every reachable state ledger sums add up to topups minus payments, and balances modulo 2^64 always and exactly while the topups fit int64 |
| Guarantees.NoOverdraftInEveryRun | wallet/service.go:225-228 | in every reachable state, without any bound, no commit-order prefix of any wallet's entries has a negative sum |
| Guarantees.TransfersPairInEveryRun | wallet/service.go:346-365 | in every reachable ledger debit and credit legs match one to one |
| Guarantees.RunExtends | migrations/000001_create_inital_schema.up.sql:43-54 | over every run the ledger only grows at its end, suspended wallets stay suspended, owners and currencies stay, and no mutex is ever replaced |
| Guarantees.HistoryInEveryRun | migrations/000001_create_inital_schema.up.sql:43-54 | over every run a wallet's entries, in commit order, are only added to at the end |
| Guarantees.RunsOrderIndependent | wallet/service.go:198-374 | two runs that commit the same entries, in any interleaving, end with the same balances |
| Guarantees.Accounting | wallet/service.go:198-374 | each committed effect is one call's own request, no call takes effect twice, every success took effect, and a call that took effect reports success or a storage error |
| Guarantees.AtMostOnce | wallet/service.go:201-205 | however a key is retried, across processes, crashes and failed lookups, no two committed applications share a key |
| Guarantees.ExactlyOnce | wallet/service.go:285-289 | when a call reports success or a replay, exactly one committed application carries its key |
| Guarantees.OwnRequestOnce | wallet/service.go:201-205 | if a key is only ever used for one request, a success or a replay means this very request was applied exactly once |
| Replays.RecordedIffOwn | wallet/service.go:202-203 | all entries a request would write are in the ledger if and only if the entry under its key is the first of them |
| Replays.RecordedIffApplied | wallet/service.go:240-253 | a request's entries are in the ledger if and only if a request that writes just these was applied |
| Replays.ReplayIsOwn | wallet/service.go:285-289 | a success or replay is right about the caller's own request if and only if the entry recorded under the key is the one it would write |
| Replays.LookupIsFinal | storage/postgres/postgres.go:272-296 | what a lookup finds under a key is what any later lookup finds |
| Retries.RetryIsReplayed | wallet/service.go:201-205 | in every run, a request sent when its key is recorded takes no mutex, row or key and commits nothing, and once done has answered as done, unless lost to a storage error, a crash or a broken connection |
| Retries.RetryGetsThere | wallet/service.go:285-289 | nothing can hold it up: at any point one or two lines of its own lead to that answer |
| Answers.DeltaChecked | wallet/service.go:215-228 | a topup or payment passes the checks, with a free key, if and only if the atomic machine may apply it to the active wallet |
| Answers.TransferChecked | wallet/service.go:317-343 | the same for a transfer |
| Answers.RefusedCannotApply | wallet/service.go:215-228 | a request whose wallets, amount or keys give a reason to refuse it is one that could not be applied to an active wallet there and then |
| Answers.RefusalJustified | wallet/service.go:211-343 | in every run, a call that ends with a business error was given it by one of its own steps, on a committed database whose rows and keys give exactly that reason |
| Refusals.RefusalRealized | wallet/service.go:211-343 | conversely, whatever reason the database gives, a request sent by itself ends with exactly that error, holding nothing and changing nothing |
| Refusals.DuplicateRealized | storage/postgres/postgres.go:394-416 | a request whose key lookup failed, or one of whose keys another request used, gets past its checks and ends at the unique key |
| Answers.CommittedRow | wallet/service.go:253-258 | the row read with the balance written is the committed row, but for its status |
| Answers.AnswerIsCommitted | wallet/service.go:257-258 | in every run a successful topup or payment answers with its wallet's row as its own commit left it; only the status may be stale |
| Guarantees.OneCreateSucceeds | wallet/service.go:136-155 | of all calls that create a wallet for one owner and currency at most one succeeds |
| Guarantees.TransferNeverLosesTheRace | wallet/service.go:366-371 | in every run no transfer fails with ErrOptimisticLock |
| SingleProcess.MutualExclusion | wallet/service.go:86-95 | two calls of one process never both hold all their mutexes with a wallet in common |
| SingleProcess.OneAtWorkInEveryRun | wallet/service.go:207-257 | in every run no two live calls of one process are between read and commit on the same wallet |
| SingleProcess.LockOrderIs | wallet/service.go:291-301 | a call takes the mutexes of exactly the wallets its request names, lower ones first |
| SingleProcess.UnlockFreesLast | wallet/service.go:298-301 | an unlock frees exactly the mutex taken last of those still held |
| SingleProcess.DisconnectFrees | storage/postgres/postgres.go:462-472 | a call whose connection breaks frees its mutexes and leaves its open transaction to the server |
| Suspension.OnlyLateDeltas | wallet/service.go:215-217 | a topup or payment that had not passed its status check when its wallet was suspended never will |
| Suspension.AfterSuspension | wallet/service.go:322-324 | with any number of processes, after a suspension no transfer on the wallet commits, and the only topups and payments that do had already passed their check |
| Suspension.AfterSuspensionInEveryRun | wallet/service.go:384-394 | the same for every run from the empty deployment in which the wallet is suspended at some point |
| Suspension.SuspensionFreezes | wallet/service.go:384-394 | once no call past its check is alive or committing, the wallet's row, entries and sum never change again, in any number of processes |
| Suspension.SuccessQuiets | wallet/service.go:389-394 | with one process at a time, a successful SuspendWallet leaves no such call |
| Suspension.FrozenAfterSuspend | wallet/service.go:389-394 | so with one process at a time, crashes, broken connections and restarts included, nothing about the wallet changes after a successful SuspendWallet |
| Suspension.SuspendSucceeded | storage/postgres/postgres.go:193-206 | a SuspendWallet that reported success did suspend the wallet |
| LateCommits.FirstChange | wallet/service.go:211-253 | the first change of a suspended wallet is made by a call that was past its check, running or committing, with an unused key and a plan for the balance as it is |
| LateCommits.CommitsLater | wallet/service.go:211-253 | and every such call commits in some continuation |
| LateCommits.SuspendedCanChange | wallet/service.go:384-388 | a suspended wallet can still change if and only if there is such a call |
| LateCommits.SuspendedCanChangeInEveryRun | wallet/service.go:384-388 | the same in every reachable state |
| Race.DeltaComparison | storage/postgres/postgres.go:446-448 | a topup's or payment's comparison fails if and only if the committed balance is not the one it read |
| Race.ComparisonInEveryRun | storage/postgres/postgres.go:428-448 | the same for the next step of every reachable state |
| Race.RaceLostToOutsider | wallet/service.go:207-251 | a topup or payment fails with ErrOptimisticLock only if, after its read, a call of another process, or one whose process or connection was gone, committed a change of its wallet |
| Race.NobodyLosesTheRace | storage/postgres/postgres.go:446-448 | in every run of one process without broken connections ErrOptimisticLock does not occur |
| Deadlock.WaitGoesUp | wallet/service.go:291-301 | waits go from mutexes to rows to keys, upward in wallet order, then in key length |
| Deadlock.FollowWaits | wallet/service.go:280-301 | from any call in flight a path of waits leads to a call that can move, or to a topup or payment waiting for its row with its key inserted |
| Deadlock.JamNeedsDelta | wallet/service.go:240-251 | any set of calls that all wait for each other contains such a topup or payment, and the call that has its row |
| Deadlock.JamInEveryRun | wallet/service.go:240-251 | the same in every run, beside any other calls; and if both are alive they are of different processes |
| Deadlock.NoJamWithoutDeltas | storage/postgres/postgres.go:337-379 | in every run, transfers, suspensions and creations never wait in a cycle, in any number of processes, beside any other calls |
| Deadlock.NoJamInOneProcess | wallet/service.go:259-301 | in every run, live calls of one process never wait in a cycle, whatever other processes do |
| Deadlock.DeadlockNeedsDelta | wallet/service.go:240-251 | where nobody at all can move there are two such calls, alive and of different processes |
| Deadlock.NoDeadlockWithoutDeltas | storage/postgres/postgres.go:365-379 | in any number of processes, whatever has run before, somebody can move while the calls in flight are transfers, suspensions and creations |
| Deadlock.NoDeadlockInOneProcess | wallet/service.go:259-271 | where the live calls are of one process nothing deadlocks, counting mutexes, row locks and uncommitted keys, those of crashed processes included |
| Deadlock.FreeMeansStep | wallet/service.go:198-374 | a call that waits for nobody has a step, at every line |
| Completion.StepLeft | wallet/service.go:198-394 | every line brings its call closer to its return |
| Completion.EverybodyCanFinish | wallet/service.go:198-394 | every run that ends with its live calls in one process, or with no topup or payment in flight, can be continued without faults until all calls have returned |
| Realization.DeltaRealized | wallet/service.go:198-257 | a topup or payment that applies, left alone on an active wallet, commits as a whole |
| Realization.TransferRealized | wallet/service.go:277-374 | a transfer that applies, left alone, commits as a whole |
| Realization.SuspendRealized | wallet/service.go:389-394 | a suspension of an existing wallet, left alone, succeeds |
| Realization.OpenRealized | wallet/service.go:120-155 | a wallet creation that applies, left alone, succeeds |
| Realization.AtomicRunRealized | wallet/service.go:198-394 | converse of the refinement: every atomic run of applicable requests without topups or payments on suspended wallets is some run of the concurrent machine |
| Limits.CreditCanWrap | wallet/service.go:344 | a reachable state with a negative balance that is not its ledger sum, once topups exceed int64 |
| Limits.CrossProcessDeadlock | wallet/service.go:240-251 | a reachable state of two processes in which nobody can move |
| Limits.TopUpCanLoseTheRace | storage/postgres/postgres.go:446-448 | a reachable state of two processes in which a topup failed with ErrOptimisticLock |
| Limits.RestartCanLoseTheRace | storage/postgres/postgres.go:446-448 | the same with one live process, after a restart: a COMMIT sent before the crash lands after the read |
| Limits.TopUpCanComeLate | wallet/service.go:211-217 | a run of two processes in which a topup commits after its wallet's suspension |
| Limits.ReplayOfAnotherRequest | wallet/service.go:202-203 | a reachable state in which a topup was answered as done because another wallet's topup had used its key |
| LockTable.WalletLocks.LockFor | wallet/service.go:86-95 | get or create: no mutex is replaced, distinct wallets keep distinct mutexes, none changes hands |
| Postgres.Store.GetByOwnerAndCurrency | storage/postgres/postgres.go:169-188 | a wallet of the owner in the currency if and only if there is one |
| Postgres.Store.FindByIdempotencyKey | storage/postgres/postgres.go:272-297 | an entry with the key if and only if there is one |
| Postgres.Store.SumByWallet | storage/postgres/postgres.go:221-231 | the sum of the wallet's entries if it fits int64; in a reconciled database that is the cached balance |
| Postgres.Store.ListByWallet | storage/postgres/postgres.go:236-264 | the wallet's entries, all of them and no others, in commit order |
| Postgres.Store.UpdateStatus | storage/postgres/postgres.go:193-206 | suspends an existing row nobody has locked, and changes nothing else |
| Postgres.Store.Create | storage/postgres/postgres.go:103-119 | inserts the row if and only if the owner exists and has no wallet in the currency |
| Postgres.Store.Begin | storage/postgres/postgres.go:315-321 | a new empty transaction; the others are as before |
| Postgres.Store.GetWalletAndLock | storage/postgres/postgres.go:343-387 | both rows locked and returned in the order asked, or the reason why not |
| Postgres.Store.AppendLedger | storage/postgres/postgres.go:394-416 | appends one pending entry if and only if its key is free here, in the ledger and in other transactions |
| Postgres.Store.UpdateBalance | storage/postgres/postgres.go:434-456 | lock, compare with the visible balance, write; each error exactly in its case |
| Service.WalletService.CheckDelta | wallet/service.go:215-228 | the checks refuse with the same reason, in the same order, as the step machine |
| Service.WalletService.CheckTransfer | wallet/service.go:317-343 | likewise for a transfer |
| Service.DeltaSucceeds | wallet/service.go:198-257 | the answer is success for exactly the topups and payments that apply to an active wallet and have nothing to wait for |
| Service.TransferSucceeds | wallet/service.go:303-373 | and for exactly such transfers |
| Service.WalletService.WriteDelta | wallet/service.go:230-256 | insert, compare and commit apply the whole change if and only if key and row are free; otherwise nothing is left behind |
| Service.WalletService.ApplyDelta | wallet/service.go:198-257 | every answer in its case: replay with the recorded wallet's row, each refusal, duplicate key, storage error, success; success is the atomic action and returns the committed row, anything else changes nothing; no mutex is left taken |
| Service.WalletService.WriteTransfer | wallet/service.go:346-373 | four writes and a commit: both legs and both balances, or nothing |
| Service.WalletService.TransferSection | wallet/service.go:303-373 | from Begin to the deferred Rollback: the atomic transfer or nothing, and no transaction left open |
| Service.WalletService.Transfer | wallet/service.go:277-374 | every answer in its case: same wallet, replay, each refusal, duplicate key, storage error, success; success is the atomic transfer, anything else changes nothing; no mutex is left taken |
| Service.WalletService.SuspendWallet | wallet/service.go:389-394 | every answer in its case: not found exactly without the wallet, a storage error exactly where its row is locked, else success; suspends it, changes nothing else and releases the mutex |
| Service.WalletService.CreateWallet | wallet/service.go:120-155 | refuses an unknown owner, and otherwise succeeds exactly when the owner has no wallet in the currency |

## Left out

- HTTP handlers, validation, response mapping, JSON, configuration and start-up: the `numeric` rule (handler/handler.go:48, 54) is the precondition of the parser theorems; the non-empty key (handler/handler.go:182-185) is not assumed anywhere, an empty key only skips the lookup.
- Characters outside the `numeric` format: the parser is modelled on them too, but beyond `AcceptedStrings` nothing is claimed about their fractions; strings are sequences of characters, Go's are bytes.
- `ListOwners`, `ListWallets`, `CreateOwner`, `newWalletID`, `GetWallet`: easy members. Owners are identifiers; an unknown owner is refused in `Service`, and in `Protocol` a failing owner lookup (service.go:133, 333) is the storage fault of the line it stands in. The owner of an existing wallet always exists (foreign key), so the lookup in Transfer refuses nobody.
- Unsupported currencies: `Currency` has only the three supported ones.
- Wallet ids are natural numbers with their order, in place of canonical UUID text; the id of a new wallet comes with the insert event.
- SQL, drivers and migrations tooling: replaced by committed tables, per-transaction buffers, row locks and pending keys under Read Committed. Keys over 100 characters are refused as the column type does.
- The connection pool (db/db.go:36): a connection is always available. A transfer that looks up the destination owner needs a second one while its transaction is open, so the deadlock theorems rest on this.
- Foreign-key share locks and the database's deadlock detector. The share lock an insert takes on its wallet's row adds waits between processes: two topups of one wallet in two processes can each insert and then wait for the other's share lock. That the row is locked by the other call (`JamInEveryRun`, `DeadlockNeedsDelta`) and the exact interleaving of `CrossProcessDeadlock` are claimed without those locks; no freedom from deadlock across processes is claimed for topups or payments.
- Deadlock.JamInEveryRun: its conjunct about the locked row leaves foreign-key share locks out, see above.
- Timestamps: `created_at` is the start of the transaction; the ledger here is in commit order.
- Postgres.Store.ListByWallet: returns commit order, where the source orders by `created_at` (postgres.go:241), which can differ across processes.
- Guarantees.HistoryInEveryRun: about commit order, for the same reason; a listing by `created_at` need not be a prefix of a later one.
- Time limits and cancellation: the service passes a background context everywhere.
- A statement of a dead call other than COMMIT, the status update and the insert of a wallet takes effect before the crash or not at all; it could only lock something until the server rolls back.
- Fairness: `EverybodyCanFinish` says that everybody can finish, not that every schedule does.
- Service.WalletService.ApplyDelta: run from start to end without interleaving; where it would wait for a mutex, a row or a key it gives up, because waiting is the subject of `Protocol`.
- Service.WalletService.Transfer: the same; interleavings and waiting are in `Protocol`.
- Service.WalletService.SuspendWallet: the same.
- Realization.AtomicRunRealized: leaves out topups and payments on suspended wallets, which need a call that read the wallet earlier; `TopUpCanComeLate` shows one.
