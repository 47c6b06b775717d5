# Verification of the v402 custody core

v402 is a prepaid payment protocol: a payer deposits coins on chain, an operator's server keeps one balance per
payer, and every paid request carries a signature that lets the server debit the price. This project models the
parts that decide who owns what, and proves properties of them for every input, every run and every interleaving. To
check it, use `dafny verify dfyconfig.toml`.

## What is modelled

**Account and ledger.** `Ledger` gives every storage operation as a function from state to state and answer.
`MemoryStorage` and `SqliteStorage` are classes whose methods, loops included, are proved to compute these
functions: the first over insertion-ordered maps, the second over tables whose money columns are decimal text and
whose operations are whole transactions. `Conservation` and `Runs` prove that balance, ledger sum, newest running
balance and credited-deposits-minus-charges never part, `LedgerBook` that every ledger row explains itself, `Tables`
and `Lifecycle` what each operation does to every row and what it answers, and `Refinement` that the two backends
cannot be told apart.

**Chain watcher.** `WatcherSpec` is one poll as a function of the storage and one chain snapshot; `Watcher` is the
imperative poll proved against it. `WatcherSafety`, `WatcherRuns`, `WatcherCompleteness`, `WatcherSystem` and
`WatcherCredits` prove custody over runs in which payments, operator credits and polls on changing chains alternate;
`ReturningBranch` and `DeepFork` are about the two cases completeness excludes, `Bootstrap` about the first poll,
`PollReport` about the figures a poll reports. `ListingOrder` proves that the order in which a database lists the
rows of a poll does not matter. `Attribution` proves that the per-poll caches never change who a deposit belongs to.

**Time and retries.** `Maintenance` puts window check, reserve, reaper and cleanup on one clock. `Client` composes
the retrying client, its challenge cache (`AcceptsCache`, `CacheHits`) and a lossy network with the server's
reserve, `Billing` adds up what one call costs, and `Verifier` shows that this server is the verifier.

**What is signed.** `Amount`, `Extensions`, `Canonical`, `Base64`, `Headers` and `Checks` prove that the signed
string determines the payment and that client and server build the same one; `Grammar` gives every field its regular
expression, `SignedText` and `Rejections` every refusal its cause. `Base58`, `Envelope`, `MessageHash` and `NofM`
treat addresses, the signature envelope, the signed bytes and the count of distinct signers; hashing and key
recovery are arbitrary functions there. `IdentityCache` treats the cached identity state, `Reconciliation` the audit
run.

`Basics`, `Text`, `Decimal`, `Positional`, `Names` and `Fifo` hold shared vocabulary.

## Hypotheses

The theorems need these, and state them:

- The clock never goes backwards (`Maintenance.Possible`); a poll, like one storage call, reads the clock once.
- Within a poll the node shows one fixed chain; a poll that needs a height the chain lacks throws before it writes.
  RPC calls that fail later in a poll are not modelled: a poll that throws after its first insert leaves rows above
  the cursor.
- For reservations to keep their refunds: a reserve follows its window check within the reservation time
  (`Maintenance.CleanupSparesReservations`), and a cleanup follows a reaper run within the slack. For claims to be
  spent once: within horizon minus tolerance (`Maintenance.ClaimsAreSingleUse`). All three bounds are exact.
- A block hash fixes its height and its ancestors, and all chains share one genesis block
  (`WatcherSafety.HashFixes`, `WatcherRuns.Successive`).
- A txid fixes its transaction and occurs in at most one block of a chain (`WatcherSafety.Regular`); what the node
  says about identities and transactions does not change during a run.
- The scan cap is larger than the lookback (`WatcherRuns.Sensible`); otherwise the cursor could move back past
  recorded rows (`WatcherRuns.RescanReachesCursor`).
- Operator credits are marked as such, carry no positive height and reuse no txid of the chain
  (`WatcherSystem.PayOk`, `WatcherSafety.Alien`).
- For completeness only: no fork below the lookback floor and no abandoned branch that returns
  (`WatcherSystem.Calm`).
- For at-most-once only: requestIds are fresh and distinct, others use other ones, nothing signed since the call
  began is purged before it ends, nothing is delivered late, and the endpoint itself never answers 402
  (`Client.Orderly`, `Client.Unused`).
- For `Checks.SignedForThisPayment` only: the node accepts a signature of a payer for one string at most.
- For agreement only: SHA-256 in hex is 64 lower-case hex digits, UTF-8 decoding leaves ASCII alone, and the
  extension limit admits one body hash (88 bytes).

## Where code and documentation part

- `handshake.ts` says a stale cache entry does not consume the price-mismatch budget. It does:
  `Client.StaleCacheSpendsBudget` says what happens, `Client.StaleCacheDiffersExactly` when it differs from the
  comment, and `Client.HagglerShowsIt` gives a server against which it does.
- `remineDeposit` in the storage clears the credit mark of any row. `Runs.KeepsExactlyWhen` gives the exact
  condition under which that is harmless, `Runs.RemineAloneUnbalances` an input for which it is not;
  `WatcherSafety.RemineSound` shows that the watcher always meets it.
- `real-watcher.ts` line 241 leaves a row alone when its block hash matches, also when the row is marked reorged, so
  a branch that is abandoned and comes back stays uncredited: `WatcherCompleteness.BookedExactlyWhen` gives the
  condition, `ReturningBranch.ReturningBranchIsMissed` the family, `ReturningBranch.ReturningBranchExists` a run.
- `real-watcher.ts` line 163 says a reorg deeper than the lookback must alarm. A poll alarms exactly when such a
  reorg takes a live row from below the lookback floor (`DeepFork.PollAlarms`). One that takes none raises only the
  ordinary reorg flag, and payments its branch brings in below the floor are never booked:
  `DeepFork.BookedExactlyInRange` gives the condition, `DeepFork.DeepForkIsSilent` and `DeepFork.MissedForEver` the
  family, `DeepFork.DeepForkExists` a run.
- The cleanup comment says cleanup can never undercut the reaper. The slack is zero for the default 300/300 seconds,
  so a cleanup that runs one second or more after the last reaper run can purge a row that is still reserved:
  `Maintenance.SlackIsNonNegative`, `Maintenance.LateCleanupLosesRefund`, `Maintenance.LastMomentRefundLost`. The
  gaps a reserve may take after its window check are exact too: `Maintenance.LargerGapSpendsTwice`,
  `Maintenance.LargerGapPurges`.
- A commit after an explicit rollback, not only after the reaper, debits again:
  `Lifecycle.CommitAfterRollbackDebits`. A commit debits exactly when it finds the row errored, whatever errored it
  (`Lifecycle.DebitsExactlyWhen`).
- When the solvency check throws, memory keeps what was written before the throw (a reorg mark, an inserted row,
  rows already reaped; exactly these, `Refinement.ThrowsThatLeaveTraces`) while SQLite rolls back. In every
  reachable state the check cannot throw (`Runs.RunConserves`), so `Refinement.BackendsAgree` holds without
  exception.
- Repeated payment headers are rejected only as arrays: of two names that differ in letter case the later one is
  taken (`Headers.LastEntryWins`). `Headers.TwoPayersAccepted` is such a list, and
  `Headers.PicksExactlyWhenRepeated` says exactly when an accepted list picked one of several values.
- The comment on `paidFetch` says endpoint errors are handed to the caller. An endpoint's own 503 or 429 is not: it
  is retried like a failure of the protocol, and the caller gets the 409 of the replay check
  (`Client.BusyEndpointLooksLikeReplay`).
- The envelope parser accepts sizes in the wide compact form where the writer uses one byte, and height 0:
  `Envelope.ParseWraps` says exactly when wrapping restores the bytes. An envelope of height 0 never verifies, since
  no digest is defined for it.
- Line 1 alone does not separate signed domains: exactly one scheme and version give each query context
  (`Canonical.ContextLineAloneIsAmbiguous`); the strings are nevertheless separate (`Canonical.DomainsAreSeparate`).

## Model

| member | source | states |
|---|---|---|
| `MemoryStorage.InMemoryStorage.AppendLedger` | packages/storage/src/memory.ts:59-86 | appends one ledger row with the next id and the running balance it is given; everything else unchanged |
| `MemoryStorage.InMemoryStorage.AssertBalanceInvariant` | packages/storage/src/memory.ts:88-101 | passes exactly when the balance equals the newest running balance of that identity, or there is nothing to compare |
| `MemoryStorage.InMemoryStorage.GetIdentity` | packages/storage/src/memory.ts:105-108 | returns the account, or nothing when there is none |
| `MemoryStorage.InMemoryStorage.ListIdentityIds` | packages/storage/src/memory.ts:110-112 | lists every account once, in insertion order |
| `MemoryStorage.InMemoryStorage.ReservePayment` | packages/storage/src/memory.ts:116-152 | new state and answer are those of `Ledger.Reserve`: replay, unknown identity, too poor, reserved, or the thrown check |
| `MemoryStorage.InMemoryStorage.CommitPayment` | packages/storage/src/memory.ts:154-160 | reserved becomes committed with its byte count; any other status is refused and reported, nothing changes |
| `MemoryStorage.InMemoryStorage.RollbackPayment` | packages/storage/src/memory.ts:162-173 | reserved becomes errored and is refunded with one ledger row; otherwise refused without change |
| `MemoryStorage.InMemoryStorage.LateCommitSpent` | packages/storage/src/memory.ts:175-187 | errored becomes committed and is debited again with one ledger row; otherwise refused without change |
| `MemoryStorage.InMemoryStorage.ReapExpiredReservations` | packages/storage/src/memory.ts:189-205 | the loop refunds, in insertion order, exactly the reserved rows received before the cutoff, and lists them |
| `MemoryStorage.InMemoryStorage.CleanupSpentRequests` | packages/storage/src/memory.ts:207-216 | the loop deletes exactly the rows signed before the cutoff and counts them; balances and ledger untouched |
| `MemoryStorage.InMemoryStorage.GetSpentRequest` | packages/storage/src/memory.ts:218-221 | returns the replay row, or nothing |
| `MemoryStorage.InMemoryStorage.SumReservedSats` | packages/storage/src/memory.ts:223-229 | the loop returns the sum of reserved amounts of the identity |
| `MemoryStorage.InMemoryStorage.RecordBalanceQuery` | packages/storage/src/memory.ts:231-245 | burns the requestId as a committed zero-amount row, or reports the replay |
| `MemoryStorage.InMemoryStorage.InsertDepositRow` | packages/storage/src/memory.ts:249-257 | appends an uncredited row with the next id, or reports the duplicate outpoint |
| `MemoryStorage.InMemoryStorage.GetDeposit` | packages/storage/src/memory.ts:259-262 | returns the row of the outpoint, or nothing |
| `MemoryStorage.InMemoryStorage.RemineDeposit` | packages/storage/src/memory.ts:264-277 | moves the row to its new block and clears its reorg and credit marks, whatever they were |
| `MemoryStorage.InMemoryStorage.UpdateDepositConfirmations` | packages/storage/src/memory.ts:279-282 | sets the depth of one row, or does nothing for an unknown id |
| `MemoryStorage.InMemoryStorage.SumPendingDepositSats` | packages/storage/src/memory.ts:284-296 | the loop returns the sum of live uncredited deposits of the identity |
| `MemoryStorage.InMemoryStorage.ListUncreditedDeposits` | packages/storage/src/memory.ts:298-302 | lists exactly the live uncredited rows, oldest first |
| `MemoryStorage.InMemoryStorage.ListDepositsAtOrAbove` | packages/storage/src/memory.ts:304-308 | lists exactly the live rows at or above the height, oldest first |
| `MemoryStorage.InMemoryStorage.CreditDeposit` | packages/storage/src/memory.ts:310-332 | credits once, creating the account on first credit; not found, reorged and already credited are refused without change |
| `MemoryStorage.InMemoryStorage.InsertAndCreditDeposit` | packages/storage/src/memory.ts:334-354 | inserts and credits in one step, or reports the duplicate; the thrown check leaves the inserted row behind |
| `MemoryStorage.InMemoryStorage.MarkDepositReorged` | packages/storage/src/memory.ts:356-376 | marks the row and, when it was credited, takes its amount back with one ledger row |
| `MemoryStorage.InMemoryStorage.GetLedgerSummary` | packages/storage/src/memory.ts:384-397 | the loop returns row count, sum of amounts and newest running balance of the identity |
| `MemoryStorage.InMemoryStorage.GetWatcherCursor` | packages/storage/src/memory.ts:429-432 | returns the stored cursor, or nothing |
| `MemoryStorage.InMemoryStorage.SetWatcherCursor` | packages/storage/src/memory.ts:434-436 | stores the cursor and changes nothing else |
| `SqliteStorage.SqliteStorage.AssertBalanceInvariant` | packages/storage-sqlite/src/sqlite-storage.ts:136-154 | over text money columns and the ledger table: passes exactly when the memory check passes on the viewed state |
| `SqliteStorage.SqliteStorage.GetIdentity` | packages/storage-sqlite/src/sqlite-storage.ts:220-223 | the mapped row of the identity table, or nothing |
| `SqliteStorage.SqliteStorage.ReservePayment` | packages/storage-sqlite/src/sqlite-storage.ts:235-293 | same answer and same viewed state as `Ledger.Reserve`; a thrown check rolls the whole transaction back |
| `SqliteStorage.SqliteStorage.CommitPayment` | packages/storage-sqlite/src/sqlite-storage.ts:295-307 | same answer and viewed state as `Ledger.Commit` |
| `SqliteStorage.SqliteStorage.RollbackPayment` | packages/storage-sqlite/src/sqlite-storage.ts:309-329 | same answer and viewed state as `Ledger.Rollback`, whole transaction or nothing |
| `SqliteStorage.SqliteStorage.LateCommitSpent` | packages/storage-sqlite/src/sqlite-storage.ts:331-351 | same answer and viewed state as `Ledger.LateCommitPayment`, whole transaction or nothing |
| `SqliteStorage.SqliteStorage.ReapExpiredReservations` | packages/storage-sqlite/src/sqlite-storage.ts:353-379 | selects the expired rows in any order the database likes; the result is `Ledger.Reap` in that order, or nothing at all when a check throws |
| `SqliteStorage.SqliteStorage.CleanupSpentRequests` | packages/storage-sqlite/src/sqlite-storage.ts:381-383 | same deletions and count as `Ledger.Cleanup` |
| `SqliteStorage.SqliteStorage.GetSpentRequest` | packages/storage-sqlite/src/sqlite-storage.ts:385-388 | the mapped replay row, or nothing |
| `SqliteStorage.SqliteStorage.RecordBalanceQuery` | packages/storage-sqlite/src/sqlite-storage.ts:414-442 | same answer and viewed state as `Ledger.RecordQuery`, which burns the requestId (`Lifecycle.QueryAnswers`) |
| `SqliteStorage.SqliteStorage.InsertDepositRow` | packages/storage-sqlite/src/sqlite-storage.ts:444-474 | same answer and viewed state as `Ledger.InsertDeposit` |
| `SqliteStorage.SqliteStorage.GetDeposit` | packages/storage-sqlite/src/sqlite-storage.ts:476-483 | the mapped row of the outpoint, or nothing |
| `SqliteStorage.SqliteStorage.RemineDeposit` | packages/storage-sqlite/src/sqlite-storage.ts:485-503 | same answer and viewed state as `Ledger.Remine` |
| `SqliteStorage.SqliteStorage.UpdateDepositConfirmations` | packages/storage-sqlite/src/sqlite-storage.ts:505-507 | same viewed state as `Ledger.UpdateConfirmations` |
| `SqliteStorage.SqliteStorage.ListUncreditedDeposits` | packages/storage-sqlite/src/sqlite-storage.ts:509-516 | exactly the live uncredited rows, each once, in whatever order the table is visited |
| `SqliteStorage.SqliteStorage.ListDepositsAtOrAbove` | packages/storage-sqlite/src/sqlite-storage.ts:518-525 | exactly the live rows at or above the height, each once, in whatever order the table is visited |
| `SqliteStorage.SqliteStorage.CreditDeposit` | packages/storage-sqlite/src/sqlite-storage.ts:567-569 | same answer and viewed state as `Ledger.Credit`, whole transaction or nothing |
| `SqliteStorage.SqliteStorage.InsertAndCreditDeposit` | packages/storage-sqlite/src/sqlite-storage.ts:571-613 | same answer and viewed state as `Ledger.InsertAndCredit`, whole transaction or nothing |
| `SqliteStorage.SqliteStorage.MarkDepositReorged` | packages/storage-sqlite/src/sqlite-storage.ts:615-638 | same answer and viewed state as `Ledger.MarkReorged`, whole transaction or nothing |
| `SqliteStorage.SqliteStorage.GetLedgerSummary` | packages/storage-sqlite/src/sqlite-storage.ts:652-666 | same count, sum and newest running balance as memory |
| `Conservation.ReserveKeeps` | packages/storage/src/memory.ts:116-152 | a reserve keeps the four views of the money of every identity equal and cannot throw |
| `Conservation.CommitKeeps` | packages/storage/src/memory.ts:154-160 | a commit keeps the invariant |
| `Conservation.RollbackKeeps` | packages/storage/src/memory.ts:162-173 | a rollback keeps the invariant and cannot throw |
| `Conservation.LateCommitKeeps` | packages/storage/src/memory.ts:175-187 | a late commit keeps the invariant and cannot throw |
| `Conservation.ReapKeeps` | packages/storage/src/memory.ts:189-205 | reaping in any order keeps the invariant and cannot throw |
| `Conservation.CleanupKeeps` | packages/storage/src/memory.ts:207-216 | purging keeps the invariant once purged charges are remembered |
| `Conservation.CreditKeeps` | packages/storage/src/memory.ts:310-332 | crediting keeps the invariant and cannot throw |
| `Conservation.MintKeeps` | packages/storage/src/memory.ts:334-354 | insert-and-credit keeps the invariant and cannot throw |
| `Conservation.MarkKeeps` | packages/storage/src/memory.ts:356-376 | a reorg mark keeps the invariant and cannot throw |
| `Conservation.RemineKeeps` | packages/storage/src/memory.ts:264-277 | a re-mine keeps the invariant when its row is not live and credited |
| `Conservation.StepKeeps` | packages/storage/src/memory.ts:116-376 | every operation keeps the invariant, except the re-mine of a live credited row |
| `Conservation.InvIsSolvent` | packages/storage/src/memory.ts:88-101 | the runtime check passes for every identity in every state that satisfies the invariant |
| `Runs.RunConserves` | packages/storage/src/memory.ts:88-397 | over every run: balance = ledger sum = newest running balance = credited live deposits minus charges (purged ones included), and nothing ever throws |
| `Runs.OvercreditUnbalances` | packages/storage/src/memory.ts:264-277 | re-mining a live credited row leaves the balance too high by exactly the deposit amount |
| `Runs.KeepsExactlyWhen` | packages/storage/src/memory.ts:264-277 | from a good state an operation keeps the invariant if and only if it is not a re-mine of a live credited row of non-zero amount |
| `Runs.RemineAloneUnbalances` | packages/storage/src/memory.ts:264-277 | the failing input: an operator credit followed by a re-mine of its output breaks the invariant, whenever the amount is not zero |
| `Runs.StepBounded` | packages/storage/src/memory.ts:139-151 | with non-negative amounts each step keeps every balance above minus what late commits and reorgs took from it |
| `Runs.RunDebtBound` | packages/storage/src/memory.ts:175-187 | over every run each balance is at least minus (late-committed plus reorg-adjusted) of that identity, and non-negative while both are zero |
| `LedgerBook.StepBooks` | packages/storage/src/memory.ts:116-376 | every step keeps the book: each ledger row carries on the running balance of its identity and names its cause, and the rows of each deposit sum to what it is worth |
| `LedgerBook.RunBooks` | packages/storage/src/memory.ts:59-376 | over every run each ledger row names one request or one deposit of its identity, with the kind, sign and amount its reason stands for; running balances form a chain; the rows of a deposit sum to its amount exactly while it is credited and live, else to zero |
| `LedgerBook.SolventMeans` | packages/storage/src/memory.ts:88-101 | the runtime check compares the balance with the running balance of the newest row of that identity, and nothing else |
| `Tables.StepDeposits` | packages/storage/src/memory.ts:249-376 | every deposit row after any operation, from any state that satisfies the invariant: which one is added with which content, which one is moved, deepened, credited or marked, the others untouched |
| `Tables.StepAccounts` | packages/storage/src/memory.ts:105-376 | every account, its balance aside, after any operation: opened at its first credit, its first deposit noted once, its last request noted by a new reserve, else untouched |
| `Tables.StepAdds` | packages/storage/src/memory.ts:59-86 | no operation changes or removes a ledger row; the rows it adds are numbered on and carry its time and its reason |
| `Tables.ReserveAnswers` | packages/storage/src/memory.ts:116-152 | replay with the old status, unknown identity, too poor with the balance, or reserved with what is left, in this order |
| `Tables.CreditAnswers` | packages/storage/src/memory.ts:310-332 | not found, reorged, already credited, or credited with the new balance and whether the account was opened |
| `Tables.MintAnswers` | packages/storage/src/memory.ts:334-354 | a duplicate, or the credited row with the new balance and whether the account was opened |
| `Tables.MarkAnswers` | packages/storage/src/memory.ts:356-376 | not found, already reorged, or marked, with the balance a credited deposit leaves behind |
| `Tables.OtherAnswers` | packages/storage/src/memory.ts:207-277 | insertion answers the new row or a duplicate, re-mining the moved row or nothing, cleanup the number of rows that are gone |
| `Lifecycle.StepAccounted` | packages/storage/src/memory.ts:116-205 | every step keeps: ledger rows of a requestId sum to minus its amount when reserved or committed, else to zero, and number at most three |
| `Lifecycle.RunAccounts` | packages/storage/src/memory.ts:116-205 | the same over every run, for every requestId that was never purged |
| `Lifecycle.ReapFollows` | packages/storage/src/memory.ts:189-205 | a reap moves a row only from reserved to errored |
| `Lifecycle.StepFollows` | packages/storage/src/memory.ts:116-205 | the only moves any operation can make: a new row is reserved, insufficient or (balance query) committed; reserved becomes committed or errored, errored becomes committed; committed and insufficient rows stay as they are |
| `Lifecycle.FinalIsAbsorbing` | packages/storage/src/memory.ts:154-187 | committed and insufficient rows never change again over any run that does not purge them; errored never becomes reserved |
| `Lifecycle.CommitIsIdempotent` | packages/verifier/src/prepaid-sig.ts:366-384 | after a successful commit and any further run, repeating it answers already-committed and changes nothing |
| `Lifecycle.RollbackIsIdempotent` | packages/verifier/src/prepaid-sig.ts:387-398 | after a successful rollback and any further run, repeating it changes nothing and reports what became of the row |
| `Lifecycle.StepMoves` | packages/storage/src/memory.ts:116-245 | everything an operation can do to one replay row: who creates it with which content, which operation changes its status from what to what, who removes it |
| `Lifecycle.StepMovesExactly` | packages/storage/src/memory.ts:116-245 | from any state that satisfies the invariant an operation changes each replay row exactly as the table of transitions says: nothing that must happen is skipped, nothing else happens |
| `Lifecycle.QueryAnswers` | packages/storage/src/memory.ts:231-245 | a query of a requestId without a row burns it and changes nothing else; with a row it reports the replay and changes nothing |
| `Lifecycle.QueryIsSingleUse` | packages/storage/src/memory.ts:231-245 | once recorded, and after any run that does not purge its row, the same requestId is a replay, whatever comes with it |
| `Lifecycle.CommitAnswers` | packages/verifier/src/prepaid-sig.ts:366-384 | the second phase on success, status by status: applied, already committed, late with the new balance, refused, or unknown |
| `Lifecycle.RollbackAnswers` | packages/verifier/src/prepaid-sig.ts:387-398 | the second phase on error, status by status: applied, already rolled back, refused, or unknown |
| `Lifecycle.DebitsExactlyWhen` | packages/verifier/src/prepaid-sig.ts:366-384 | a commit debits if and only if it finds the row errored, whoever errored it: one ledger row, the amount off the row's account, a late reply; in every other status no money moves |
| `Lifecycle.CommitAfterRollbackDebits` | packages/verifier/src/prepaid-sig.ts:377-382 | the failing input: rollback refunds a reserved row, and a commit after it takes the amount again although no reaper ran |
| `Lifecycle.RaceIsResolved` | packages/verifier/src/prepaid-sig.ts:377-382 | a commit that loses the race to the reaper ends in the same rows, accounts and ledger sums as one that won it |
| `Refinement.ReapOrderIrrelevant` | packages/storage-sqlite/src/sqlite-storage.ts:353-379 | reaping the same expired rows in any two orders gives the same accounts, rows and ledger rows up to listing order |
| `Refinement.SameOpAgrees` | packages/storage-sqlite/src/sqlite-storage.ts:235-638 | from agreeing states the same call gives the same answer and agreeing states |
| `Refinement.SameCallAgrees` | packages/storage-sqlite/src/sqlite-storage.ts:353-379 | the same, with each side reaping in its own order |
| `Refinement.ThrowsThatLeaveTraces` | packages/storage/src/memory.ts:334-376 | of the operations that throw on the check, exactly a reorg mark, an insert-and-credit and a reap that refunded before the throw leave memory changed |
| `Refinement.BackendsShowSameMoney` | packages/storage-sqlite/src/sqlite-storage.ts:652-666 | after every run both backends show every identity the same balance, ledger sum and newest running balance, all in agreement |
| `Refinement.BackendsAgree` | packages/storage-sqlite/src/sqlite-storage.ts:235-638 | over every run two backends receiving the same calls give the same answers and end in states equal up to listing order |
| `Decimal.ShowReads` | packages/storage-sqlite/src/sqlite-storage.ts:156-218 | an integer written to a text money column is read back exactly, sign included |
| `Decimal.ShowInjective` | packages/storage-sqlite/src/sqlite-storage.ts:156-218 | different amounts have different texts |
| `Decimal.DigitsOfValue` | packages/protocol/src/amount.ts:18-30 | digits without superfluous leading zero are the ones their value is written with |
| `Decimal.NumeralsFixDigits` | packages/protocol/src/amount.ts:18-30 | each numeral stands for its place among 0123456789, in writing and in reading, and nothing else is a digit |
| `Decimal.AppendDigit` | packages/protocol/src/amount.ts:23-30 | one more digit multiplies the value by ten and adds it |
| `Names.KeyIgnoresCase` | packages/protocol/src/identity.ts:14-16 | names that differ only in letter case, chain suffix included, give one account key |
| `Names.KeysAgreeExactly` | packages/protocol/src/identity.ts:14-16 | two names have one key exactly when, outer space aside, they differ in letter case only |
| `Names.KeyOfPadded` | packages/protocol/src/identity.ts:14-16 | the key is the name between its outer space, in small letters |
| `Names.SuffixIsStripped` | packages/deposit-watcher/src/attribution.ts:15-22 | a name of the chain, its suffix in any letter case, becomes the chain-relative name |
| `Names.OtherNamesStay` | packages/deposit-watcher/src/attribution.ts:15-22 | a name without the chain's suffix is left as it is |
| `Attribution.SenderAddresses` | packages/deposit-watcher/src/attribution.ts:50-70 | the loop over inputs collects exactly the source addresses, whatever truthful entries the caches already hold |
| `Attribution.AttributeSender` | packages/deposit-watcher/src/attribution.ts:44-88 | attribution with warm caches equals attribution with none: the one identity behind all identity inputs, or the reason there is none |
| `Attribution.AttributesExactly` | packages/deposit-watcher/src/attribution.ts:44-74 | a deposit is attributed exactly when its inputs spend from one identity address and no other; the two reasons for not attributing it are spending from none and spending from several |
| `Attribution.PayerOwnsDeposit` | packages/deposit-watcher/src/attribution.ts:75-87 | the account a deposit goes to is the one its payer spends from: the key of the chain-relative name, or of the short name when the node gives no qualified one |
| `WatcherSafety.ExistingIsMarked` | packages/deposit-watcher/src/real-watcher.ts:238-242 | a row found for an output of the scanned block is real, and if live it records this very block |
| `WatcherSafety.RemineSound` | packages/deposit-watcher/src/real-watcher.ts:242-249 | so the watcher re-mines only rows already marked reorged, and the poll stays sound |
| `WatcherSafety.InsertSound` | packages/deposit-watcher/src/real-watcher.ts:252-279 | a new row records a genuine payment to the operator, on the chain, for its sender |
| `WatcherSafety.ScanOutSound` | packages/deposit-watcher/src/real-watcher.ts:235-281 | one output, whichever branch it takes, keeps the poll sound |
| `WatcherSafety.ScanBlocksSound` | packages/deposit-watcher/src/real-watcher.ts:190-194 | the scan of a range of blocks keeps the poll sound |
| `WatcherSafety.MarkRowsEffect` | packages/deposit-watcher/src/real-watcher.ts:164-179 | the marking pass marks exactly the live rows whose recorded block is gone, and touches nothing else |
| `WatcherSafety.CreditRowsEffect` | packages/deposit-watcher/src/real-watcher.ts:207-220 | the crediting pass sets every waiting depth and credits exactly the rows deep enough |
| `WatcherRuns.MarkAll` | packages/deposit-watcher/src/real-watcher.ts:164-179 | on the new chain the marking pass completes, keeps the books, and marks exactly the live rows that lost their block |
| `WatcherRuns.DetectSound` | packages/deposit-watcher/src/real-watcher.ts:149-181 | cursor comparison and marking establish soundness on the new chain, whether the cursor block survived or not |
| `WatcherRuns.ScanAnchors` | packages/deposit-watcher/src/real-watcher.ts:183-204 | the capped scan leaves the cursor on a block of the chain at or above every live row |
| `WatcherRuns.RescanReachesCursor` | packages/deposit-watcher/src/real-watcher.ts:153-184 | the rescan after a reorg reaches the old cursor again exactly when the block cap exceeds the part it goes back over |
| `WatcherRuns.AdvanceSafe` | packages/deposit-watcher/src/real-watcher.ts:149-224 | a poll from a stored cursor completes when its block height exists, and keeps invariant and anchor |
| `WatcherCompleteness.ScanOutBooks` | packages/deposit-watcher/src/real-watcher.ts:235-281 | when no abandoned branch is back, scanning an attributable payment books it and loses no other booking |
| `WatcherCompleteness.BookedExactlyWhen` | packages/deposit-watcher/src/real-watcher.ts:239-241 | scanning books a payment if and only if its row is not a reorged one carrying this very block hash |
| `WatcherCompleteness.DetectComplete` | packages/deposit-watcher/src/real-watcher.ts:149-181 | after a fork above the lookback floor nothing below the rescan start is missing |
| `WatcherCompleteness.ScanCompletes` | packages/deposit-watcher/src/real-watcher.ts:183-204 | the scan books every attributable payment of its range and loses none below it |
| `WatcherCompleteness.AdvanceComplete` | packages/deposit-watcher/src/real-watcher.ts:149-224 | a poll books everything up to its cursor and credits everything deep enough |
| `WatcherCompleteness.DeepReorgAlarms` | packages/deposit-watcher/src/real-watcher.ts:164-179 | the marking pass raises an alarm for a height exactly when a live row there, below the floor, has lost its block |
| `DeepFork.PollAlarms` | packages/deposit-watcher/src/real-watcher.ts:163-179 | a poll raises the deep-reorg alarm for a height exactly when the cursor block is gone and a live row recorded there, below the lookback floor, has lost its block |
| `DeepFork.BookedExactlyInRange` | packages/deposit-watcher/src/real-watcher.ts:150-224 | when no abandoned branch returned, an attributable payment without a row is booked by a poll if and only if its block lies in the scanned range, which after a lost cursor starts at the lookback floor |
| `DeepFork.DeepForkIsSilent` | packages/deposit-watcher/src/real-watcher.ts:163-196 | the failing family: a payment below the floor on a new branch that took no live row from below the floor; the poll completes, raises no alarm and does not book it |
| `DeepFork.MissedForEver` | packages/deposit-watcher/src/real-watcher.ts:148-196 | such a payment has no row after any further run of payments and polls in which the chain only grows |
| `DeepFork.DeepForkExists` | packages/deposit-watcher/src/real-watcher.ts:163-196 | the witness: with a lookback of one block, three scanned blocks are replaced and the lowest new one pays the operator; no alarm, no row |
| `Bootstrap.BootstrapsAtTip` | packages/deposit-watcher/src/real-watcher.ts:137-147 | without a start height the first poll puts the cursor on the tip, with its hash, and does nothing else |
| `Bootstrap.StartsAtHeight` | packages/deposit-watcher/src/real-watcher.ts:137-147 | with one it goes on as if the cursor stood on the block below, and scans that height first |
| `Bootstrap.FirstPollThrows` | packages/deposit-watcher/src/real-watcher.ts:137-139 | it throws exactly when the block to start from is not there, and changes nothing then |
| `Bootstrap.HistoryIsIgnored` | packages/deposit-watcher/src/real-watcher.ts:137-148 | no transaction below the first height, and without a start height none up to the tip of the first poll, has a row after any run in which the chain only grows |
| `PollReport.ScanOutDoes` | packages/deposit-watcher/src/real-watcher.ts:235-278 | what a scan does with one output, branch by branch, down to every field of a new row |
| `PollReport.MarkRowDoes` | packages/deposit-watcher/src/real-watcher.ts:164-179 | what marking does with one row: the mark, the count, the negative-balance flag exactly when the account ends below zero, the alarm below the floor |
| `PollReport.CreditRowDoes` | packages/deposit-watcher/src/real-watcher.ts:207-220 | what crediting does with one waiting row: its depth, and at depth the credit with the balance it leaves |
| `PollReport.RowThrows` | packages/deposit-watcher/src/real-watcher.ts:156-219 | where the two passes throw: marking at a row above the tip, both at a failed solvency check, leaving what the storage wrote before it; after that they do nothing |
| `PollReport.PollReports` | packages/deposit-watcher/src/real-watcher.ts:120-224 | the figures of every completed poll are true: rows added, marks set less marks removed, blocks remaining and lag up to the tip, the reorg and scan-cap flags exactly when they apply |
| `WatcherSystem.PollSafe` | packages/deposit-watcher/src/real-watcher.ts:120-224 | a poll completes exactly when the block it needs first exists, changes nothing otherwise, and keeps the custody invariant |
| `WatcherSystem.RunWatches` | packages/deposit-watcher/src/real-watcher.ts:120-224 | the custody invariant over every run of payments, operator credits and polls on changing chains |
| `WatcherSystem.LiveRowsAreBacked` | packages/deposit-watcher/src/real-watcher.ts:149-220 | over every such run: books balance, every live real row lies on the last polled chain at its height and hash and pays the recorded amount for the recorded sender, is recorded once, and was credited only at depth |
| `WatcherSystem.PollCovers` | packages/deposit-watcher/src/real-watcher.ts:120-224 | one poll keeps every attributable payment up to the cursor booked, and credits what is deep enough |
| `WatcherSystem.RunCovers` | packages/deposit-watcher/src/real-watcher.ts:150-224 | over every run without deep forks and returning branches every attributable payment from the start height to the cursor has its live row |
| `WatcherCredits.CreditsAreDeep` | packages/deposit-watcher/src/real-watcher.ts:206-220 | over every run each credit of a real deposit was made by a completed poll of the run, at its clock, on a chain that carries the transaction in the recorded block and buries it by the recorded depth, at least minConfirmations |
| `WatcherCredits.RunDelivers` | packages/deposit-watcher/src/real-watcher.ts:150-220 | over every calm run, later payments included: every attributable payment from the start height to the cursor has its live row, and every live row the last polled chain buries deep enough is credited |
| `ReturningBranch.ReturningBranchIsMissed` | packages/deposit-watcher/src/real-watcher.ts:239-241 | for every live real row: a poll that loses its block and a later poll that brings the very block back leave the payment on the chain without a live row |
| `ReturningBranch.ReturningBranchExists` | packages/deposit-watcher/src/real-watcher.ts:239-241 | the witness: three polls from the empty store end in a sound state with a reorged row whose hash is on the chain, which neither the run nor another scan books |
| `ListingOrder.MarkOrderIrrelevant` | packages/storage-sqlite/src/sqlite-storage.ts:518-525 | marking the same rows in two orders, on agreeing stores, completes and ends in agreeing stores: same accounts, rows, cursors and position-blind ledger sums |
| `ListingOrder.CreditOrderIrrelevant` | packages/storage-sqlite/src/sqlite-storage.ts:509-516 | the same for settling and crediting the waiting rows in two orders |
| `ListingOrder.PollAgrees` | packages/deposit-watcher/src/real-watcher.ts:120-224 | one poll on agreeing stores, the second listing its rows in any order: both complete or both throw, the stores agree again, and the reports are the same but for running balances and the negative-balance flags that show them |
| `ListingOrder.RunAgrees` | packages/deposit-watcher/src/real-watcher.ts:120-224 | over every run of payments, operator credits and polls, two stores that meet the rows of their reaps and polls in orders of their own agree up to the listing order of ledger rows |
| `WatcherSystem.CatchesUp` | packages/deposit-watcher/src/real-watcher.ts:183-204 | on a fixed tip each poll completes and moves the cursor up by the block cap until it stands at the tip |
| `Watcher.RealDepositWatcher.PollOnce` | packages/deposit-watcher/src/real-watcher.ts:120-147 | the imperative poll equals `WatcherSpec.Poll`: bootstrap, throw, result and new storage state |
| `Watcher.RealDepositWatcher.Continue` | packages/deposit-watcher/src/real-watcher.ts:149-224 | the poll after the cursor is known equals `WatcherSpec.Advance` |
| `Watcher.RealDepositWatcher.DetectReorg` | packages/deposit-watcher/src/real-watcher.ts:149-181 | cursor check, alarms and backing up equal `WatcherSpec.Detect` |
| `Watcher.RealDepositWatcher.ScanForward` | packages/deposit-watcher/src/real-watcher.ts:183-204 | capped scan, cursor write and remaining-blocks flag equal `WatcherSpec.Scan` |
| `Watcher.RealDepositWatcher.MarkStale` | packages/deposit-watcher/src/real-watcher.ts:165-179 | the marking loop, its throw included, equals `WatcherSpec.MarkRows` |
| `Watcher.RealDepositWatcher.ScanRange` | packages/deposit-watcher/src/real-watcher.ts:188-194 | the height loop with its shared caches equals the cache-free specification |
| `Watcher.RealDepositWatcher.ScanOneBlock` | packages/deposit-watcher/src/real-watcher.ts:226-237 | the two nested loops over transactions and outputs equal their specification |
| `Watcher.RealDepositWatcher.ScanOneOutput` | packages/deposit-watcher/src/real-watcher.ts:235-279 | skip, leave alone, re-mine, unattributed or insert, as specified |
| `Watcher.RealDepositWatcher.CreditDeep` | packages/deposit-watcher/src/real-watcher.ts:207-220 | the crediting loop, its throw included, equals `WatcherSpec.CreditRows` |
| `Maintenance.SlackIsNonNegative` | packages/facilitator/src/maintenance/maintenance.service.ts:45-48 | horizon minus tolerance minus reservation time is never negative, and zero exactly when both are equal and at least 300 |
| `Maintenance.MaintenanceService.RunReaper` | packages/facilitator/src/maintenance/maintenance.service.ts:60-68 | reaps with the configured reservation time as cutoff |
| `Maintenance.MaintenanceService.RunCleanup` | packages/facilitator/src/maintenance/maintenance.service.ts:70-78 | purges with the horizon fixed at construction |
| `Maintenance.ClaimsAreSingleUse` | packages/verifier/src/prepaid-sig.ts:219-225 | over every interleaving of window checks, reserves, reaper, cleanup and other operations no signed claim is reserved twice, if a reserve follows its check within horizon minus tolerance |
| `Maintenance.SomeoneCanPay` | packages/facilitator/src/maintenance/maintenance.service.ts:43-48 | the failing schedules have a start: one operator credit on the empty system gives an account that can pay |
| `Maintenance.LargerGapSpendsTwice` | packages/facilitator/src/maintenance/maintenance.service.ts:43-48 | one second more and a feasible schedule reserves one claim twice, from any state in which the account can pay |
| `Maintenance.CleanupSparesReservations` | packages/facilitator/src/maintenance/maintenance.service.ts:60-78 | a cleanup within the slack after the last reaper run purges no reserved row, if every reserve follows its window check within the reservation time |
| `Maintenance.LargerGapPurges` | packages/facilitator/src/maintenance/maintenance.service.ts:60-78 | that bound is exact: at a gap of one second more, from any state in which the account can pay, a feasible schedule ends where a cleanup within the slack purges a reserved row |
| `Maintenance.LateCleanupLosesRefund` | packages/facilitator/src/maintenance/maintenance.service.ts:45-48 | the slack is exact: a row received one reservation time before the reaper ran is purged, and its refund refused, as soon as the slack is exceeded |
| `Maintenance.LastMomentRefundLost` | packages/facilitator/src/maintenance/maintenance.service.ts:45-48 | that row is reached by a feasible schedule without delay from any state in which the account can pay |
| `Fifo.PutEffect` | packages/client-fetch/src/accepts-cache.ts:55-62 | a write is found, keeps keys distinct and the cap, and evicts at most the oldest entry |
| `AcceptsCache.AcceptsCache.Get` | packages/client-fetch/src/accepts-cache.ts:45-53 | a fresh entry, or nothing; an expired entry is dropped |
| `AcceptsCache.AcceptsCache.Set` | packages/client-fetch/src/accepts-cache.ts:55-62 | reinserts at the back and evicts the oldest entry of a full cache |
| `AcceptsCache.AcceptsCache.Delete` | packages/client-fetch/src/accepts-cache.ts:64-66 | removes the entry of the key and no other |
| `AcceptsCache.HitsAreCurrent` | packages/client-fetch/src/accepts-cache.ts:29-67 | over every run: never over the cap, and a hit is the requirement last stored for that key, not deleted since and younger than the TTL |
| `CacheHits.HitsExactlyWhen` | packages/client-fetch/src/accepts-cache.ts:29-67 | a lookup is answered if and only if the key was stored, is younger than the TTL, was neither deleted nor found too old since, and never had as many other live keys written after it as the cache holds |
| `Client.QuietIsSteady` | packages/storage/src/memory.ts:116-216 | no operation of others changes whether a requestId of the call has been charged |
| `Client.ExchangeClean` | packages/client-fetch/src/handshake.ts:217-230 | one send, lost or not, can charge only the current requestId; a 402 means it has not been charged |
| `Client.SendPaidClean` | packages/client-fetch/src/handshake.ts:217-236 | the transient-retry loop sends at most maxRetries + 1 times and keeps that |
| `Client.FetchLoopClean` | packages/client-fetch/src/handshake.ts:139-163 | the recovery loop takes a new requestId only when the old one has not been charged, and a bounded number of times |
| `Client.OneCallOneDebit` | packages/client-fetch/src/handshake.ts:123-164 | for every schedule of lost requests and responses at most one requestId of a call is ever reserved, and ids and sends are bounded |
| `Billing.OneCallOnePrice` | packages/client-fetch/src/handshake.ts:123-164 | over the whole call the ledger rows of all its requestIds, refunds and late commits included, sum to minus what at most one of them holds, which is the price one of its deliveries asked for |
| `Client.StaleCacheSpendsBudget` | packages/client-fetch/src/handshake.ts:147-160 | a stale cache entry uses up one price-mismatch recovery: with a budget of at most one the next mismatch is returned, otherwise retried |
| `Client.SendPaidReturns` | packages/client-fetch/src/handshake.ts:217-236 | the retry loop ends with the first answer that is neither lost nor 503 nor 429, or with its last attempt, after exactly that many sends of the same request, and returns that answer |
| `Client.RoundEndsCall` | packages/client-fetch/src/handshake.ts:139-145 | an answer other than 402 ends the call: it is returned and the requirement cached; no answer at all ends it with an error |
| `Client.RoundGoesOn` | packages/client-fetch/src/handshake.ts:146-163 | a 402 is acted on exactly when the requirement came from the cache, or on a price mismatch within the budget; the next id signs the requirement of that answer |
| `Client.UnpaidAnswers` | packages/client-fetch/src/handshake.ts:129-137 | before anything is signed: the cached requirement, the unpaid answer, or the requirement of its 402 |
| `Client.PaidAnswerIsReturned` | packages/client-fetch/src/handshake.ts:123-164 | a delivery that arrives, passes and is reserved is what the call returns, after one send, with the requirement cached and the row holding the price in the status the second phase gives it |
| `Client.BusyEndpointLooksLikeReplay` | packages/client-fetch/src/handshake.ts:112-121 | the failing input: an endpoint's own 503 or 429 is retried, and the caller gets a 409 instead |
| `Client.SpentRecoveryMatters` | packages/client-fetch/src/handshake.ts:139-163 | for every budget and number of recoveries spent: one more spent changes the outcome exactly when price mismatches use up the smaller budget and one more recovery is called for |
| `Client.StaleCacheDiffersExactly` | packages/client-fetch/src/handshake.ts:147-160 | exactly when the call differs from one that keeps its whole budget, as the comment promises: budget positive, all recoveries but one used up, one more called for |
| `Client.HagglerShowsIt` | packages/client-fetch/src/handshake.ts:147-160 | the failing input: against a server that answers every signed request with a price mismatch the call differs, for every positive budget |
| `Client.SendPaidLoop` | packages/client-fetch/src/handshake.ts:217-236 | the loop with its attempt counter equals `Client.SendPaid` |
| `Client.Call` | packages/client-fetch/src/handshake.ts:129-164 | the recovery loop, with other callers using the shared cache in every round and the clock read anew for the write, equals `Client.PaidFetch`; the cache holds what the whole history of accesses leaves, ending in the stored requirement or containing the drop |
| `Checks.SchemeHeaderSplits` | packages/verifier/src/registry.ts:35-39 | the header the client writes splits into the scheme and version it signed |
| `Checks.PassingIsSigned` | packages/verifier/src/prepaid-sig.ts:181-285 | a request passes only on a valid signature over a string naming this very payment, within the window, from an unblocked payer, with the body hash checked |
| `Checks.BodyHashIsChecked` | packages/verifier/src/prepaid-sig.ts:344-362 | an accepted body hash is the hash of this body, unless the route ignores it |
| `Checks.EarlyRefusals` | packages/verifier/src/prepaid-sig.ts:189-199 | unreadable headers and another scheme have their answers |
| `Checks.VersionAndPrice` | packages/verifier/src/prepaid-sig.ts:200-212 | an unknown version is refused, and a price mismatch reported exactly when the signed amount is not the price |
| `Checks.LateRefusals` | packages/verifier/src/prepaid-sig.ts:214-285 | past those gates: the extension error, then the clock exactly outside the window, the blocklist, the canonical form, and the node's word on the signature, each with its status |
| `Checks.ExtensionAnswers` | packages/verifier/src/prepaid-sig.ts:307-363 | when extensions are accepted and why not: encoding, size, block, foreign fields, then the body-hash rule of the route |
| `Checks.FirstForeignAnswers` | packages/verifier/src/prepaid-sig.ts:333-340 | the first field of this scheme's or the reserved namespace that is not the body hash names the error |
| `Checks.SignedForThisPayment` | packages/verifier/src/prepaid-sig.ts:235-271 | no signature over another price, path, receiver, requestId or time can make a request pass |
| `Checks.ExtensionsTravel` | packages/client-fetch/src/handshake.ts:173-215 | the extensions the server decodes are the ones the client signed, through serialization, UTF-8 and Base64 |
| `Checks.ClientServerAgree` | packages/verifier/src/prepaid-sig.ts:235-252 | configured as advertised, the server asks about exactly the string the client signed; only clock, blocklist and signature can still refuse |
| `Checks.SentHeadersParse` | packages/client-fetch/src/handshake.ts:190-215 | the headers the client sets are read back as the claim it signed, whatever transport does to their order and letter case |
| `Verifier.VerusPrepaidSigVerifier.DecodeExtensions` | packages/verifier/src/prepaid-sig.ts:307-363 | the decoding steps and the loop over fields equal `Checks.DecodeExtensions`, error codes and their order included |
| `Verifier.VerusPrepaidSigVerifier.Check` | packages/verifier/src/prepaid-sig.ts:181-285 | the pipeline with its early returns equals `Checks.RunChecks`, error codes, statuses and their order included |
| `Verifier.VerusPrepaidSigVerifier.VerifyAndReserve` | packages/verifier/src/prepaid-sig.ts:128-178 | replay first, then the checks, then the atomic reserve: answer and state equal `Verifier.Decide` |
| `Verifier.VerusPrepaidSigVerifier.Commit` | packages/verifier/src/prepaid-sig.ts:366-384 | commit, idempotent repeat, late commit or refusal, equal to `Lifecycle.CommitPhase` |
| `Verifier.VerusPrepaidSigVerifier.Rollback` | packages/verifier/src/prepaid-sig.ts:387-398 | rollback, idempotent repeat or refusal, equal to `Lifecycle.RollbackPhase` |
| `Verifier.MoneyMovesOnlyWhenAccepted` | packages/verifier/src/prepaid-sig.ts:128-178 | an accepted request costs the payer's account, and no other, exactly the configured price; a declined one moves nothing; nothing throws |
| `Verifier.ReplyMeans` | packages/verifier/src/prepaid-sig.ts:128-178 | every reply has its cause: a spent requestId before all else, then the failed check, then no account, a balance below the price, or acceptance for exactly the price |
| `Verifier.SettleDoes` | packages/verifier/src/prepaid-sig.ts:366-398 | what the second phase leaves of a reservation: committed with its bytes, refunded, or reserved still |
| `Verifier.AcceptedLeavesRow` | packages/verifier/src/prepaid-sig.ts:147-164 | an accepted request leaves the row of its own requestId: account, signing time, receipt time, price, method and path |
| `Verifier.EarlyReplayIsOptional` | packages/verifier/src/prepaid-sig.ts:129-144 | the early replay answer only saves work: without it the store is the same, and the reply differs exactly when a spent requestId also fails a check |
| `Verifier.MismatchIsReported` | packages/verifier/src/prepaid-sig.ts:207-212 | the client hears of a price mismatch exactly when the amount it signed is not the current price |
| `Verifier.ClientMeetsVerifier` | packages/verifier/src/prepaid-sig.ts:128-178 | the server inside the at-most-once theorem is this verifier followed by the guard's second phase: same store, and the status the payer sees is 500, the failure's or the endpoint's |
| `Headers.IndexByName` | packages/protocol/src/schemas.ts:80-83 | the first loop indexes the last defined entry of every name, letter case aside |
| `Headers.ReadRequired` | packages/protocol/src/schemas.ts:85-107 | the second loop reads the six required values or reports the first missing or repeated one |
| `Headers.ParsePaymentHeaders` | packages/protocol/src/schemas.ts:77-154 | the parser equals `Headers.Parse`: every field checked in order, the optional extensions added |
| `Headers.ParseCarried` | packages/protocol/src/schemas.ts:77-154 | headers that carry the claim once each, in any order and letter case among others, are read back exactly, decimal timestamp included |
| `Headers.AcceptedIsValid` | packages/protocol/src/schemas.ts:109-132 | every accepted claim satisfies the grammar of each field |
| `Headers.LastEntryWins` | packages/protocol/src/schemas.ts:80-83 | wherever they stand, the last defined entry of a name, letter case aside, is the one read |
| `Headers.PicksExactlyWhenRepeated` | packages/protocol/src/schemas.ts:73-83 | an accepted list passed over a value given under a payment name if and only if two of its defined entries bear one payment name |
| `Headers.TwoPayersAccepted` | packages/protocol/src/schemas.ts:77-154 | the failing input: a list with two payers of different value is accepted with the later one |
| `Rejections.FirstProblemAnswers` | packages/protocol/src/schemas.ts:85-107 | the first required header, in order, that is absent or has several values is the one reported |
| `Rejections.FieldsAnswer` | packages/protocol/src/schemas.ts:109-153 | once read, the fields are checked in order against their grammars, then the extensions header; what passes is the claim of exactly these texts |
| `Rejections.BlockAnswers` | packages/protocol/src/extensions.ts:60-82 | the first bad line of an extension block is reported with its problem: no key and value, bad key, bad value, repeated or unsorted key |
| `Rejections.SerializerAnswers` | packages/protocol/src/extensions.ts:38-46 | the serializer reports the first field with a bad key, a bad value or a repeated key |
| `Amount.SatsRoundTrip` | packages/protocol/src/amount.ts:23-45 | every non-negative amount is written in the wire grammar and read back exactly |
| `Amount.WorthOf` | packages/protocol/src/amount.ts:23-30 | an amount is worth the number its digits form without the dot, so many hundred-millionths per fraction place |
| `Amount.NegativeIsNeverValid` | packages/protocol/src/amount.ts:37-45 | a negative amount is a minus sign and its absolute value, and never valid on the wire |
| `Amount.HumanRoundTrip` | packages/protocol/src/amount.ts:23-45 | every valid string, converted there and back, gives its form without trailing fraction zeros |
| `Amount.EqualSatsIffEqualMinimal` | packages/protocol/src/amount.ts:10-30 | two valid strings mean the same amount exactly when their minimal forms are equal |
| `Amount.MinimalIsCanonical` | packages/protocol/src/amount.ts:37-45 | a minimal form is valid, worth the same and its own minimal form |
| `Extensions.SerializeExtensionBlock` | packages/protocol/src/extensions.ts:38-52 | the serializer with its duplicate check equals `Extensions.Serialize` |
| `Extensions.ParseExtensionBlock` | packages/protocol/src/extensions.ts:60-82 | the parser with its previous key equals `Extensions.Parse`, error codes included |
| `Extensions.SerializesExactly` | packages/protocol/src/extensions.ts:38-46 | a list is serialized exactly when its fields are valid and its keys distinct |
| `Extensions.SortIsUnique` | packages/protocol/src/extensions.ts:47-50 | fields with distinct keys have one ascending order, so any sort gives the same block |
| `Text.LessMeans` | packages/protocol/src/extensions.ts:47-50 | the order of keys: a proper prefix first, otherwise the first differing character decides |
| `Extensions.ParseSerialize` | packages/protocol/src/extensions.ts:38-82 | parsing a serialized list gives that list sorted by key |
| `Extensions.ParsedBlock` | packages/protocol/src/extensions.ts:60-82 | an accepted block holds ascending valid fields that render to that very block |
| `Extensions.SerializeParse` | packages/protocol/src/extensions.ts:38-82 | serializing a parsed block gives back the same bytes |
| `Extensions.SameBlockIffSameFields` | packages/protocol/src/extensions.ts:38-52 | two lists give the same block exactly when they hold the same fields, in whatever order |
| `Canonical.CoreIsLines` | packages/protocol/src/canonical.ts:17-58 | no accepted core field can hold a line break |
| `Canonical.CanonicalLines` | packages/protocol/src/canonical.ts:67-98 | an accepted payload is twelve core lines and one line per extension, nothing more |
| `Canonical.CanonicalReads` | packages/protocol/src/canonical.ts:67-98 | a signed string says exactly what was put into it: every field is found under its own label, the version after the scheme on line 1, the extensions in key order after line 12 |
| `Canonical.CanonicalIsInjective` | packages/protocol/src/canonical.ts:67-98 | two accepted payloads give the same string exactly when all core fields agree and they hold the same extensions |
| `Canonical.QueryIsInjective` | packages/protocol/src/canonical.ts:104-144 | query strings agree exactly when context and all fields agree |
| `SignedText.PaymentAnswers` | packages/protocol/src/canonical.ts:67-98 | a payment is written exactly when every core field matches its regular expression and the extensions serialize; a bad core is reported first |
| `SignedText.QuerySays` | packages/protocol/src/canonical.ts:104-144 | a signed query is six lines: its own context, then every field under its label |
| `SignedText.QueryAnswers` | packages/protocol/src/canonical.ts:104-144 | a query is written exactly when its fields match |
| `Grammar.MethodGrammar` | packages/protocol/src/canonical.ts:15 | the method grammar is that regular expression |
| `Grammar.NetworkGrammar` | packages/protocol/src/canonical.ts:16 | the network grammar is that regular expression |
| `Grammar.LineSafeGrammar` | packages/protocol/src/canonical.ts:17-19 | the line-safe grammar is that regular expression, Unicode white space included |
| `Grammar.IdentityGrammar` | packages/protocol/src/schemas.ts:16-19 | the identity grammar is that regular expression |
| `Grammar.UlidGrammar` | packages/protocol/src/canonical.ts:7-12 | the requestId grammar is that regular expression |
| `Grammar.SchemeVersionGrammar` | packages/protocol/src/canonical.ts:14 | the version grammar is that regular expression |
| `Grammar.DashedGrammar` | packages/protocol/src/canonical.ts:13 | the scheme-name grammar is that regular expression |
| `Grammar.AmountGrammar` | packages/protocol/src/amount.ts:16-20 | the amount grammar is that regular expression |
| `Grammar.IssuedAtGrammar` | packages/protocol/src/schemas.ts:70-70 | the issue time matches that regular expression and is a safe integer |
| `Grammar.ExtensionKeyGrammar` | packages/protocol/src/extensions.ts:7-16 | the extension-key grammar is that regular expression |
| `Grammar.BodyHashGrammar` | packages/verifier/src/prepaid-sig.ts:350-353 | the body-hash grammar is that regular expression |
| `Grammar.Base64Grammar` | packages/protocol/src/signature.ts:9-13 | the Base64 gate is that regular expression |
| `Grammar.PathRule` | packages/protocol/src/canonical.ts:40-48 | a request target: line-safe, starting with a slash, and before its query without an empty, one-dot or two-dot segment |
| `Canonical.PaymentIsNoQuery` | packages/protocol/src/canonical.ts:67-144 | no payment string is a query string, whatever the scheme is called |
| `Canonical.DomainsAreSeparate` | packages/protocol/src/canonical.ts:67-144 | payment, balance-query and ledger-query strings never coincide |
| `Canonical.ContextLineAloneIsAmbiguous` | packages/protocol/src/canonical.ts:13-14 | line 1 alone does not separate them: among all accepted schemes and versions exactly one pair gives each query context, and both pairs are accepted |
| `Base64.DecodeEncode` | packages/protocol/src/signature.ts:9-13 | every non-empty byte string passes the Base64 gate once encoded and decodes back to itself |
| `Base64.GroupIsNumber` | packages/signer-verus/src/sign.ts:26-33 | three bytes are written as the four base-64 digits of the number they form, in the standard alphabet, padded at the end |
| `Base58.Base58Decode` | packages/signer-verus/src/wif.ts:9-27 | the loops and the output buffer equal `Base58.Decode`, invalid characters included |
| `Base58.AlphabetFixesSymbols` | packages/signer-verus/src/wif.ts:3-4 | a character stands for its place in the alphabet, and no other character for anything |
| `Base58.DecodesExactly` | packages/signer-verus/src/wif.ts:11-15 | a text decodes exactly when every character is in the alphabet |
| `Base58.DecodeKeepsValue` | packages/signer-verus/src/wif.ts:16-27 | the bytes stand for the same number, after as many zero bytes as the text has leading ones |
| `Base58.AddressLayout` | packages/signer-verus/src/wif.ts:37-73 | an identity address is version 102, a 20-byte hash and four bytes of double SHA-256, an R-address the same under version 60; nothing else decodes |
| `Base58.WifLayout` | packages/signer-verus/src/wif.ts:80-94 | a private-key text is version 188, 32 key bytes, the byte 1 and the checksum |
| `Base58.BodyIsBase256` | packages/signer-verus/src/wif.ts:16-18 | the detour over padded hex text yields the base-256 digits of the number |
| `Base58.DecodeIsInjective` | packages/signer-verus/src/wif.ts:9-27 | different strings decode to different bytes |
| `Base58.AddressIsInjective` | packages/signer-verus/src/wif.ts:37-73 | two addresses of one kind with the same hash are the same string, whatever SHA-256 does |
| `Base58.WifIsInjective` | packages/signer-verus/src/wif.ts:80-94 | one private key has one WIF string |
| `Envelope.WrapIdentitySignatures` | packages/signer-verus/src/sign.ts:54-75 | the byte writer with its moving offset equals `Envelope.Wrap` |
| `Envelope.ParseIdentitySignature` | packages/signer-verus/src/verify.ts:52-73 | the parser loop equals `Envelope.Parse`, terminates and reads only inside the buffer |
| `Envelope.RenderedIsParsed` | packages/signer-verus/src/verify.ts:52-73 | every rendering of 1 to 255 signatures is parsed to its envelope, whichever forms its sizes have |
| `Envelope.ParsedIsRendered` | packages/signer-verus/src/verify.ts:52-73 | an accepted byte string is, to its last byte, such a rendering |
| `Envelope.WrapParses` | packages/signer-verus/src/sign.ts:54-75 | 1 to 252 signatures of 65 bytes and a height from 1 to 2^32 - 1 survive wrapping and parsing, and nothing else is wrapped |
| `Envelope.ParseWraps` | packages/signer-verus/src/verify.ts:185-194 | wrapping what was parsed gives the same bytes exactly when the height is positive and no size is in the wide form |
| `Envelope.LittleEndian` | packages/signer-verus/src/sign.ts:65-66 | the height stands with its least significant byte first |
| `Envelope.WrapLayout` | packages/signer-verus/src/sign.ts:54-75 | the envelope byte by byte, and exactly when it is written: 1 to 252 signatures of 65 bytes, a positive four-byte height |
| `Envelope.ParseLimits` | packages/signer-verus/src/verify.ts:52-73 | the parser takes 1 to 255 signatures of 65 bytes and any four-byte height |
| `MessageHash.IdentityIsBound` | packages/signer-verus/src/message-hash.ts:44-68 | the bytes under an identity signature determine chain, height, identity and message hash |
| `MessageHash.IdentityParts` | packages/signer-verus/src/message-hash.ts:44-68 | where each part stands in those bytes |
| `MessageHash.MessageIsBound` | packages/signer-verus/src/message-hash.ts:15-18 | different messages are hashed from different bytes, whichever of the three length forms they take |
| `MessageHash.AddressAndIdentityApart` | packages/signer-verus/src/message-hash.ts:20-24 | no address signature is over the bytes of an identity signature |
| `MessageHash.WrappedParts` | packages/signer-verus/src/message-hash.ts:20-24 | the wrapped hash: the length 19, the magic text, the hash |
| `NofM.VerifyIdentitySignature` | packages/signer-verus/src/verify.ts:108-154 | the verifier with its map of primaries and set of matches equals `NofM.Verify` |
| `NofM.MatchAll` | packages/signer-verus/src/verify.ts:135-142 | the nested loops match exactly the primary addresses behind at least one signature |
| `NofM.AcceptsExactlyQuorums` | packages/signer-verus/src/verify.ts:108-154 | accepted exactly when live, decodable, and at least max(1, minimumSignatures) distinct primary addresses signed |
| `NofM.OrderAndDuplicatesIrrelevant` | packages/signer-verus/src/verify.ts:135-153 | the verdict ignores order and repetition of signatures |
| `NofM.NoMoreSignersThanSignatures` | packages/signer-verus/src/verify.ts:135-142 | one signature stands for at most one address |
| `NofM.AcceptanceNeedsSignatures` | packages/signer-verus/src/verify.ts:144-152 | an accepted envelope holds at least as many signatures as the identity requires |
| `NofM.SignedVerifies` | packages/signer-verus/src/sign.ts:102-118 | signatures that recover to the hashes of enough distinct primary addresses, over the digest of chain, height, identity and message, are accepted once wrapped and encoded, for that height and with those addresses |
| `NofM.CompactIsRead` | packages/signer-verus/src/verify.ts:161-177 | the header byte, 27 plus the recovery id plus 4 for a compressed key, is read back as written |
| `NofM.RecoversOnlyCompacts` | packages/signer-verus/src/verify.ts:161-177 | nothing but such 65 bytes recovers a key |
| `NofM.AddressSignedVerifies` | packages/signer-verus/src/verify.ts:26-35 | an address signature made with the key behind the address is accepted |
| `NofM.AddressSignatureNamesOneKey` | packages/signer-verus/src/verify.ts:26-35 | it is valid for one address only |
| `IdentityCache.CachedIdentityProvider.GetIdentityState` | packages/verifier/src/identity-provider.ts:86-95 | a fresh entry, or the call in flight for the key, or a new call |
| `IdentityCache.CachedIdentityProvider.RefreshIdentityState` | packages/verifier/src/identity-provider.ts:97-106 | an entry younger than the refresh age, or the call in flight, or a new call |
| `IdentityCache.CachedIdentityProvider.Store` | packages/verifier/src/identity-provider.ts:122-137 | an answer is reinserted at the back, evicting the oldest entry of a full cache |
| `IdentityCache.OneCallPerKey` | packages/verifier/src/identity-provider.ts:117-143 | over every interleaving no key has two calls open at the node |
| `IdentityCache.CacheIsNewest` | packages/verifier/src/identity-provider.ts:130-135 | the cache holds exactly the most recently answered keys, as many as fit, each with its latest answer; failures leave no trace |
| `IdentityCache.CachedRepliesAreCurrent` | packages/verifier/src/identity-provider.ts:86-106 | a cached reply is the latest answer for that key and younger than the limit asked for |
| `IdentityCache.CallsAreRateLimited` | packages/verifier/src/identity-provider.ts:97-106 | a request is answered from the cache exactly when the latest answer is young enough and fewer other keys than fit were answered since |
| `IdentityCache.JoinsExactlyWhenOpen` | packages/verifier/src/identity-provider.ts:117-143 | a request not answered from the cache joins exactly when a call for its key is open or not cleaned up, and otherwise opens one |
| `Reconciliation.Run` | packages/facilitator/src/reconciliation/reconciliation.service.ts:52-72 | the check loop reports, on any state, exactly the identities whose balance, ledger sum and newest running balance disagree, each once with its figures |
| `Reconciliation.CheckIdentity` | packages/facilitator/src/reconciliation/reconciliation.service.ts:59-71 | one identity is reported exactly when its three figures disagree |
| `Reconciliation.ReportMeans` | packages/facilitator/src/reconciliation/reconciliation.service.ts:59-71 | an unreported account has balance, ledger sum and newest running balance equal; a report shows the three |
| `Reconciliation.ReachableStatesAreClean` | packages/facilitator/src/reconciliation/reconciliation.service.ts:35-41 | in every reachable state there is nothing to report |

## Left out

- Cryptography: SHA-256, RIPEMD-160, secp256k1 signing and recovery are parameters; no collision freedom is assumed.
- HTTP servers and clients, framework wiring, the reverse proxy, metrics, logging and configuration parsing.
- The Verus RPC client with its circuit breaker: the node is an arbitrary environment.
- The simulated watcher, the blocklist tables, discovery documents, topup instructions and MCP caps: easy members.
- The stateless `verify` endpoint: the same checks without the reserve.
- Offline verification's second attempt with refreshed identity state: the two parts it combines are modelled.
- Reconciliation's on-chain float crosscheck and its run log: advisory.
- `listLedgerEntries` pagination, `sumCreditedDeposits`, and SQLite's own sums and listings beyond the ledger summary
  and the two deposit listings of a poll.
- SQLite internals: a transaction is atomic and isolated; tables are maps and sequences, and listing order is free
  where the query leaves it free.
- Reserve inside a running poll: payments happen between polls, not between two steps of one.
- Timers: intervals, sleeps and retry-after delays; the schedule of ticks is arbitrary instead.
- Decoding of the 402 response and rejection of a malformed requirement: a challenge is either malformed or parsed.
- Errors thrown while the client builds its payload: a call that cannot be signed sends nothing.
- Error messages and free-text flags: errors are codes, operator flags are constructors.
- The floating-point fallback for outputs without exact satoshis, and fractional timestamps.
- Unicode case folding, and trimming beyond ASCII spaces: names are compared on ASCII letters.
- Sorting in UTF-16 code units: keys are ASCII, where the orders agree.
- The deposit map's text key: the pair of txid and output number stands for it.
- Tolerant Base64 decoding of malformed input: a parameter that must agree with the standard on well-formed text.
- Order of the matched addresses in a verification result: a set stands for the list.
- Delivery of RPC answers to waiting callers: the identity cache model says who joins which call, not what each
  promise later yields.
