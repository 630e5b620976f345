# A locker bank, proved

A parcel is registered, stored in a locker by an agent, and collected at the door with a
six-digit code. This project models that life in Dafny: the database rows and the guarded writes
that settle every race, the fee charged for the stay, the two counters that cap wrong codes and
re-issued codes, and the ordered walks behind allocation and listings.

It has six layers, each built on the one before.

| files | what they hold |
|---|---|
| `Common`, `Ordering`, `Packages`, `Database` | the values, the tables with their keys, and each SQL statement as a function on the tables |
| `StorageRate`, `StorageFee`, `StorageRateSchedule`, `Tilings`, `StorageRateTable`, `PriceHistory` | bands, the fee loop, publishing, and the versioned, append-only price table; what is accepted said of days, what is looked up and listed said of rows |
| `AttemptCounter`, `LimiterRuns` | the two Redis scripts as a class, and bounds over whole runs against one key |
| `Protocol`, `Safety`, `Interleaving`, `Runs`, `Codes`, `LimitsInForce` | any number of store, retrieve and re-issue requests interleaved at their repository and limiter calls, beside operator edits and price changes: the inductive invariant, and what it gives over every run |
| `Calls`, `Effects`, `Outcomes`, `Administration` | one call as a chain of its own turns with everyone else's between: what each turn changes and answers, said of columns and counters; what a success has recorded; when a call must succeed; what the operators' steps do |
| `Turns`, `LockerBank`, `Allocation`, `Listing` | the services and repositories as methods over mutable tables, each proved to take exactly the protocol's steps whatever everyone else does in between; the index walk; the listings |

How to read the model:

- A request is a program counter with what it carries (`Protocol.Request`). Between any two of its
  calls to the outside, anything else may happen. What it once read may be stale; the snapshot that
  the allocating query sees is any set at all.
- There is one clock for the database's users and the counter store, and it never goes back. The
  clock a retrieval prices with may show anything; the one a store stamps with shows some instant
  already reached.
- Millisecond instants and money are integers. `Math.ceil` of a duration in days is exact here.
- Text is compared through a weight, so that codes equal under the column's collation are equal.
- The keyed hash is any function of code and row id. Only `Codes.OnlyTheCurrentCodeOpens` asks
  that it tell codes apart.
- Stations, lockers, parcels and prices are changed by single steps. An edit or retirement of a
  locker waits for a transaction that holds its row.
- `Limit.lingers` says what the counter store does at the one instant a key expires: keep it with a
  time to live of 0 until that instant is over, or have it gone.
- A service method answers with a ghost `Calls.Progress`: the turns it took, each one a step of the
  protocol from the world it found to the world it left, and only evolution between them. `Calls`,
  `Effects` and `Outcomes` say what any such progress has done and not done, and so what the methods do.
- `Bank.Others` is everything else that goes on. Its contract is what every step of the protocol
  is proved to keep; its body is beside the point.

Where the code and its own words disagree, the model follows the code:

- The fee loop's error message promises to report an overlap. It cannot: an overlap and a gap of the
  same size cancel (`StorageFee.OverlapCanHideAGap`). For bands that do not overlap, which is all
  that publishing lets in, the guard is exact (`StorageFee.GuardThrowsExactlyOnGaps`).
- The counter script's comment calls a key without an expiry a permanent lockout. `READ_BLOCK` lets
  such a key's caller in (`AttemptCounter.NoExpiryNoBlock`).
- A key's count can pass `cap + k - 1`, for `k` calls at once, in a store that keeps a key through
  the instant it expires: `READ_BLOCK` answers 0 at that instant and the old count grows on. It stays
  within the bound exactly in a store that does not
  (`LimiterRuns.CountBoundedExactlyWhenKeysDoNotLinger`). The bounds on events hold in either.

## Model

| member | source | states |
|---|---|---|
| Runs.ReachableIsSafe | src/packages/infrastructure/mysql-package.repository.ts:76-199 | the inductive invariant holds in every state any interleaving can reach |
| Runs.StepIsSafe | src/packages/infrastructure/mysql-package.repository.ts:76-199 | each step keeps the invariant and lets the world only evolve: parcels move forward, closed rows, retired lockers, locked lockers and past prices stand still |
| Runs.RowsAndStatusesAgree | migrations/001_init.sql:83-92 | at most one open row a locker and one row a parcel; REGISTERED, STORED and RETRIEVED are exactly no row, one open row, one closed row |
| Safety.StatusIsTheRow | src/packages/infrastructure/mysql-package.repository.ts:139-143 | status and row determine each other, both ways |
| Safety.UnconditionalUpdateOverwritesOnlyRegistered | src/packages/infrastructure/mysql-package.repository.ts:139-148 | when the insert goes in, the unconditional update finds a REGISTERED parcel |
| Safety.StoreTxSafe | src/packages/infrastructure/mysql-package.repository.ts:111-148 | inserting a row that fits its live locker keeps keys, foreign keys, checks, statuses and prices |
| Safety.SetHashSafe | src/packages/infrastructure/mysql-package.repository.ts:154-168 | the guarded code update keeps the invariant and touches no closed row |
| Safety.CloseTxSafe | src/packages/infrastructure/mysql-package.repository.ts:176-199 | closing a row at the price of its own stay keeps the invariant |
| Runs.AtMostOneRetrievalSucceeds | src/packages/infrastructure/mysql-package.repository.ts:176-199 | of all retrievals of one parcel in a run, at most one reports success |
| Runs.ClosedRowsAreFinal | src/packages/infrastructure/mysql-package.repository.ts:162-168 | a closed row's hash, instant and fee never change again |
| Runs.HistoryOnlyEvolves | src/packages/infrastructure/mysql-package.repository.ts:76-199 | between any two moments of a run nothing is undone |
| Runs.EveryFeeIsTheStaysOwn | src/packages/application/retrieve-package.service.ts:87-95 | every fee on record is, over its own stay as clamped, the sum for each day begun of the rate in the rows of the latest version at or before `stored_at` |
| Runs.PastRatesNeverChange | src/storage-rates/infrastructure/mysql-storage-rate.repository.ts:32-46 | the bands for an instant already reached are the same at every later moment |
| Runs.RowsAreSuccessfulCalls | src/packages/infrastructure/mysql-package.repository.ts:111-138 | rows and successful stores are one to one, closed rows and committed retrievals likewise |
| Runs.StoredStaysPlaced | src/packages/application/store-package.service.ts:75-114 | a stored parcel stays at a locker of the station named whose rank fits, in every later state |
| Runs.StoreCommitsItsCode | src/packages/application/store-package.service.ts:86-99 | the step that makes a store succeed adds one open row under a fresh id, with the hash of the code returned, for a parcel that was REGISTERED |
| Runs.OnlyReissueChangesTheCode | src/packages/infrastructure/mysql-package.repository.ts:154-168 | a row's hash changes only when a re-issue commits, while the row is open, to the hash of that re-issue's code |
| Runs.RetirementsHold | src/lockers/application/decommission-locker.service.ts:22-31 | an occupied locker is never retired, a live locker stands at a live station, no retirement is undone |
| Administration.RetireLockerRetires | src/lockers/application/decommission-locker.service.ts:22-31 | a live locker without an open row becomes DECOMMISSIONED with every other column kept; any other is left alone |
| Administration.RetiredForGood | src/lockers/domain/locker.entity.ts:94-98 | a retired locker stays retired, columns and all, and never holds a parcel again |
| Administration.AddStationOpens | src/stations/application/create-station.service.ts:22-31 | a station under a fresh id is active |
| Administration.RetireStationRetires | src/stations/application/decommission-station.service.ts:25-36 | an active station whose lockers are all retired is retired; any other is left alone |
| Administration.AddLockerAdds | src/lockers/application/create-locker.service.ts:36-60 | a locker of the size and code given is added, in service, exactly at an active station where the code is new |
| Administration.EditLockerEdits | src/lockers/application/update-locker.service.ts:18-42 | a live locker takes the code and status asked for, unless the code is another's at its station |
| Administration.RegisterRegisters | src/packages/application/register-package.service.ts:29-42 | a parcel is REGISTERED for its customer, in its size, now |
| Administration.PublishPublishes | src/storage-rates/application/publish-storage-rate.service.ts:23-45 | publishing adds exactly the version's rows when its instant is future and new, its bands cover each day once and the table can hold them, and they price the size from then on; otherwise nothing changes |
| Safety.LockerEditSafe | src/lockers/application/update-locker.service.ts:18-42 | creating, editing and retiring lockers under their guards keep the invariant |
| Safety.StationsAndParcelsSafe | src/stations/application/decommission-station.service.ts:25-36 | registering parcels, adding stations and retiring empty stations keep the invariant |
| Runs.RequestsTerminate | src/packages/application/store-package.service.ts:75-129 | every request ends within eight steps of its own, a store within three attempts |
| Codes.EveryHashIsOfAGivenCode | src/packages/application/reissue-pickup-code.service.ts:99-105 | in every reachable state each row answers to a code some successful call has given out for it |
| Codes.OnlyTheCurrentCodeOpens | src/packages/application/retrieve-package.service.ts:73-85 | a retrieval gets past the comparison only with the one code the open row now answers to, whatever was given out before |
| Interleaving.RequestStays | src/packages/application/reissue-pickup-code.service.ts:81-105 | no step of anyone else falsifies what a request with a stale copy relies on |
| Interleaving.PriceStep | src/packages/domain/locker-assignment.entity.ts:82-94 | pricing with an unclamped clock, even one behind `storedAt`, yields the price of the clamped stay |
| LimitsInForce.KeySeesARun | src/shared/redis/attempt-counter.scripts.ts:18-41 | each counter key, in any run of the whole system, sees a run of the counter machine |
| LimitsInForce.WrongCodesAreBounded | src/packages/application/retrieve-package.service.ts:67-85 | in any stretch of a run, at most (cap + k - 1) x (floor(T / lockout) + 1 + clears) wrong codes are compared at a door, k attempts at once |
| LimitsInForce.ReissuesInAWindow | src/packages/infrastructure/redis-pickup-code-reissue-limiter.ts:33-52 | any half-open window holds at most cap + k - 1 re-issues of a parcel |
| LimitsInForce.DoorCountIsBounded | src/packages/infrastructure/redis-pickup-attempt-limiter.ts:27-50 | a door's counter stays within cap + k - 1 where keys do not linger |
| LimitsInForce.NobodyIsLockedOutForGood | src/shared/redis/attempt-counter.scripts.ts:28-36 | every counter has an expiry at most one window away, and its block ends there |
| LimitsInForce.ParcelsAreNeverCleared | src/packages/infrastructure/redis-pickup-code-reissue-limiter.ts:33-52 | nothing in the system ever clears a parcel's re-issue count |
| LimiterRuns.RunReflects | src/shared/redis/attempt-counter.scripts.ts:18-41 | what the key holds is the streak of recorded events it has seen, with room left for every call let in |
| LimiterRuns.BlockLiftsOneWindowAfterTheLastEvent | src/shared/redis/attempt-counter.scripts.ts:25-34 | blocked calls never prolong a block; it lifts exactly one window after the last recorded event |
| LimiterRuns.WindowHoldsAtMostTheCap | src/shared/redis/attempt-counter.scripts.ts:18-41 | a window without a clear holds at most cap + k - 1 recorded events |
| LimiterRuns.RunRecordsAtMost | src/shared/redis/attempt-counter.scripts.ts:18-41 | events recorded over any stretch are bounded by windows begun and clears |
| LimiterRuns.NoBlockIsPermanent | src/shared/redis/attempt-counter.scripts.ts:35-41 | a non-zero counter always has an expiry |
| LimiterRuns.CountBoundedExactlyWhenKeysDoNotLinger | src/shared/redis/attempt-counter.scripts.ts:18-41 | the counter stays within cap + k - 1 if and only if keys are gone at the instant they expire |
| AttemptCounter.KeyStore.ReadBlock | src/shared/redis/attempt-counter.scripts.ts:18-23 | answers the milliseconds left on the block, 0 when another attempt is let in |
| AttemptCounter.KeyStore.CountFailure | src/shared/redis/attempt-counter.scripts.ts:38-41 | one more on the live count, and a whole window from now |
| AttemptCounter.KeyStore.Check | src/packages/infrastructure/redis-pickup-attempt-limiter.ts:27-37 | lets in exactly when no block is left, else whole seconds rounded up |
| AttemptCounter.RetryAfterIsEnough | src/packages/infrastructure/redis-pickup-attempt-limiter.ts:34-36 | coming back when told to is late enough, and less than a second too late |
| AttemptCounter.BlockLeftMeans | src/shared/redis/attempt-counter.scripts.ts:18-23 | the rest of the time of a key counted to its cap, 0 for any other |
| AttemptCounter.NoExpiryNoBlock | src/shared/redis/attempt-counter.scripts.ts:18-36 | a count without an expiry blocks nobody |
| LockerBank.Bank.constructor | migrations/001_init.sql:73-101 | a bank opened with no parcels and a sound price table meets the invariant |
| LockerBank.Bank.Store | src/packages/application/store-package.service.ts:61-130 | whatever others do between its calls, the method takes exactly the protocol's steps from `store` to its answer, loop included |
| LockerBank.Bank.ReserveLockerAndStore | src/packages/infrastructure/mysql-package.repository.ts:76-152 | selecting, building and inserting are the protocol's two steps, with each rejection told apart by its key |
| LockerBank.Bank.Retrieve | src/packages/application/retrieve-package.service.ts:64-123 | takes exactly the protocol's steps from the block check to the answer |
| LockerBank.Bank.Collect | src/packages/application/retrieve-package.service.ts:87-99 | price, close, clear, in that order, and no clear when the close loses its race |
| LockerBank.Bank.Reissue | src/packages/application/reissue-pickup-code.service.ts:72-137 | takes exactly the protocol's steps from the budget check to the answer |
| LockerBank.Bank.Issue | src/packages/application/reissue-pickup-code.service.ts:105-128 | save, count, clear, in that order, and neither count nor clear when the save loses its race |
| LockerBank.Bank.FindPackage | src/packages/infrastructure/mysql-package.repository.ts:52-62 | the package with its row, if it has one |
| LockerBank.Bank.FindActive | src/packages/infrastructure/mysql-package.repository.ts:64-74 | the package behind the door, or none exactly when no open row names that door |
| LockerBank.Bank.SelectLocker | src/packages/infrastructure/mysql-package.repository.ts:78-97 | the allocation of the bank as the query sees it |
| LockerBank.Bank.NameKey | src/packages/infrastructure/mysql-package.repository.ts:124-137 | the key a duplicate-entry error names is one that is broken |
| LockerBank.Bank.InsertStored | src/packages/infrastructure/mysql-package.repository.ts:111-148 | insert and status update commit together or leave the tables as they were |
| LockerBank.Bank.SavePickupCode | src/packages/infrastructure/mysql-package.repository.ts:154-174 | the guarded update, and then the timestamp, with others in between; no row, no change |
| LockerBank.Bank.SaveRetrieval | src/packages/infrastructure/mysql-package.repository.ts:176-199 | closes an open row and its parcel together, or changes nothing |
| LockerBank.Bank.RecordFailure | src/packages/infrastructure/redis-pickup-attempt-limiter.ts:39-46 | counts on the door's key alone |
| LockerBank.Bank.RecordIssue | src/packages/infrastructure/redis-pickup-code-reissue-limiter.ts:45-52 | counts on the parcel's key alone |
| Calls.CallIsSafe | src/packages/application/retrieve-package.service.ts:64-123 | wherever a call has got to, what it stands on holds and the world has only evolved |
| Calls.CallIsShort | src/packages/application/store-package.service.ts:75-129 | no call takes more than eight turns |
| Calls.StoreChangesOnlyItsRow | src/packages/application/store-package.service.ts:75-129 | a store that fails has changed nothing; one that succeeds has written its row in its last turn and nothing before |
| Calls.RetrieveClosesOnlyItsRow | src/packages/application/retrieve-package.service.ts:94-99 | a retrieval changes the tables in one turn only, closing its row with the instant and fee it reports; one that fails leaves them alone |
| Calls.ReissueRehashesOnlyItsRow | src/packages/application/reissue-pickup-code.service.ts:101-128 | a re-issue that fails has changed nothing, its budget included; one that succeeds has given its parcel's open row the hash of the code returned |
| Effects.StoreLoadingTurn | src/packages/application/store-package.service.ts:64-66 | goes on exactly for a REGISTERED parcel, and says which way it is not |
| Effects.StationTurn | src/packages/application/store-package.service.ts:71-73 | goes on exactly at an active station, and says which way it is not |
| Effects.AllocatingTurn | src/packages/infrastructure/mysql-package.repository.ts:80-110 | the smallest suitable locker with the earliest code, or the failure when there is none; the row to be written takes the clock's reading, the drawn id and code, the call's agent |
| Effects.InsertingTurn | src/packages/infrastructure/mysql-package.repository.ts:111-148 | a clash on the parcel's row alone ends the call, on the locker or the id alone retries it, up to three attempts; without a clash row and parcel are written, column by column |
| Effects.RetrieveCheckingTurn | src/packages/application/retrieve-package.service.ts:67-70 | turned away exactly while the door's key blocks, then exactly without six digits |
| Effects.RetrieveFindingTurn | src/packages/application/retrieve-package.service.ts:72-73 | goes on exactly for a known door |
| Effects.RetrieveLoadingTurn | src/packages/application/retrieve-package.service.ts:75-85 | the code is compared with the one open row at the door, if there is one |
| Effects.RetrieveFailingTurn | src/packages/application/retrieve-package.service.ts:82-85 | a wrong code adds one on its door's key for a whole window, and changes nothing else |
| Effects.RetrievePricingTurn | src/packages/application/retrieve-package.service.ts:87-94 | goes on to save exactly when the size had a version when the stay began, with the later of reading and `storedAt` and the price of the days begun by then |
| Effects.RetrieveSavingTurn | src/packages/infrastructure/mysql-package.repository.ts:176-199 | an open row is closed as priced and its parcel RETRIEVED then, column by column; a closed one is left alone |
| Effects.RetrieveClearingTurn | src/packages/application/retrieve-package.service.ts:99-121 | the door's key goes, and the answer is what was recorded |
| Effects.ReissueCheckingTurn | src/packages/application/reissue-pickup-code.service.ts:78-79 | turned away exactly while the parcel's key blocks |
| Effects.ReissueLoadingTurn | src/packages/application/reissue-pickup-code.service.ts:81-92 | goes on exactly for the customer's own parcel with an open row |
| Effects.ReissueFindingTurn | src/packages/application/reissue-pickup-code.service.ts:94-104 | the drawn code is hashed under the row's own id and stamped with the clock's reading |
| Effects.ReissueSavingTurn | src/packages/infrastructure/mysql-package.repository.ts:154-168 | an open row takes the new hash and nothing else; a closed one is left alone |
| Effects.ReissueTouchingTurn | src/packages/infrastructure/mysql-package.repository.ts:170-173 | the parcel takes the stamp and nothing else |
| Effects.ReissueCountingTurn | src/packages/application/reissue-pickup-code.service.ts:121 | one more on the parcel's key, for a whole window |
| Effects.ReissueClearingTurn | src/packages/application/reissue-pickup-code.service.ts:128-136 | the door's key goes, and the answer names the code stored |
| Outcomes.StoreRecordsItsLastAllocation | src/packages/application/store-package.service.ts:75-114 | what a successful store recorded is the reading, id, code and locker of its last allocation and its call's agent, parcel and station |
| Outcomes.RetrievalRecordsItsPricing | src/packages/application/retrieve-package.service.ts:87-121 | a successful retrieval reports and records the later of its pricing clock and `storedAt`, and the price by the day of that stay |
| Outcomes.ReissueRecordsItsCode | src/packages/application/reissue-pickup-code.service.ts:97-136 | a successful re-issue recorded the hash of the code it returns and the clock it read |
| Outcomes.StoreSucceeds | src/packages/application/store-package.service.ts:61-130 | a store of a waiting parcel that meets no clash and always finds a locker ends in success |
| Outcomes.RetrievalSucceeds | src/packages/application/retrieve-package.service.ts:64-123 | with the row's code at a door not blocked, for an open row nobody else writes and whose size has a price, a retrieval ends in success |
| Outcomes.ReissueSucceeds | src/packages/application/reissue-pickup-code.service.ts:72-137 | for the customer's own parcel that stays open, within its budget, a re-issue ends in success |
| Allocation.FirstFit | src/packages/infrastructure/mysql-package.repository.ts:80-97 | the first index entry that is free, unlocked and large enough is the unique minimum by size and code over the whole bank; none exactly when no locker qualifies |
| Allocation.FirstIsBest | migrations/005_locker_size_rank.sql:23-40 | the first qualifying entry of an ordered index precedes every other candidate |
| Allocation.EveryBankHasAnIndex | migrations/005_locker_size_rank.sql:38-40 | any bank of lockers has such an index |
| Common.FitsMeans | src/lockers/domain/locker-size.ts:17-40 | a parcel fits its own size, a small one any, a large one only large |
| StorageRate.TilingCoversEachDayOnce | src/storage-rates/domain/storage-rate.ts:39-41 | in a tiling, every day from 0 on has one covering band and no other |
| StorageRate.Of | src/storage-rates/domain/storage-rate.ts:14-36 | accepts exactly the bands with whole, non-negative, ascending bounds and a whole, non-negative rate |
| StorageFee.CalculateStorageFeeMinor | src/packages/domain/storage-fee-calculator.ts:15-42 | the loop with two accumulators and its guard compute the fee |
| StorageFee.DayIsChargedOnceStarted | src/packages/domain/storage-fee-calculator.ts:20-22 | day d is charged exactly when it has begun by the time of retrieval |
| StorageFee.BandsAndDaysAgree | src/packages/domain/storage-fee-calculator.ts:24-34 | adding up over bands is adding up over days |
| StorageFee.GuardThrowsExactlyOnGaps | src/packages/domain/storage-fee-calculator.ts:36-40 | for valid bands that do not overlap, the guard throws exactly when some charged day has no band |
| StorageFee.OverlapCanHideAGap | src/packages/domain/storage-fee-calculator.ts:36-40 | overlapping bands can pass the guard with a day uncovered |
| StorageFee.GuardPassesExactlyWhenCoverageAddsUp | src/packages/domain/storage-fee-calculator.ts:36-41 | for all valid bands: it passes exactly when the coverage counts sum to the days |
| StorageFee.TilingFee | src/packages/domain/storage-fee-calculator.ts:15-42 | for a tiling it never throws, and the fee is the sum of each started day's one posted rate |
| StorageFee.FeeNeverFalls | src/packages/domain/storage-fee-calculator.ts:15-42 | collecting later never costs less |
| StorageFee.ClampDoesNotChangeTheFee | src/packages/domain/locker-assignment.entity.ts:82-94 | the unclamped reading and the clamped instant cost the same |
| StorageRateSchedule.Publish | src/storage-rates/domain/storage-rate-schedule.ts:48-105 | checks, sorts and walks; answers the version or the first error |
| StorageRateSchedule.WalkNeighbours | src/storage-rates/domain/storage-rate-schedule.ts:72-96 | finds the first thing that keeps sorted bands from tiling |
| StorageRateSchedule.AcceptedExactlyWhenSomeOrderTiles | src/storage-rates/domain/storage-rate-schedule.ts:57-105 | a future version is accepted exactly when its bands are valid and some order of them tiles, and it holds them in that order |
| StorageRateSchedule.SortFindsTheTiling | src/storage-rates/domain/storage-rate-schedule.ts:72-96 | bands have at most one tiling order, the one sorting finds |
| StorageRateSchedule.SubmissionOrderIsIrrelevant | src/storage-rates/domain/storage-rate-schedule.ts:57-105 | shuffling the bands changes neither acceptance, nor the version, nor the error |
| Tilings.TilesExactlyWhenEachDayOnce | src/storage-rates/domain/storage-rate-schedule.ts:72-96 | sorted valid bands pass the walk exactly when each day from 0 on is covered once |
| Tilings.AcceptedExactlyWhenEachDayOnce | src/storage-rates/domain/storage-rate-schedule.ts:57-105 | a future version is accepted exactly when its bands, in any order, are valid and cover each day once; what is kept is those bands by first day |
| StorageRateTable.RateTable.Publish | src/storage-rates/infrastructure/mysql-storage-rate.repository.ts:48-83 | all rows of the version or none of them |
| StorageRateTable.PublishesExactlyNewVersions | migrations/003_storage_rate_versions.sql:36-38 | a second version of a size at one instant always collides, on day 0; any other goes in |
| StorageRateTable.PublishKeepsSound | src/storage-rates/infrastructure/mysql-storage-rate.repository.ts:48-83 | the table always splits into versions that each tile |
| StorageRateTable.InForceIsTheLatest | src/storage-rates/infrastructure/mysql-storage-rate.repository.ts:37-40 | the version chosen is the latest at or before the instant, or none when there is none |
| StorageRateTable.PricedExactlyFromTheFirstVersionOn | src/packages/infrastructure/tiered-storage-fee.policy.ts:24-32 | a stay can be priced exactly when its size had a version when it began, and then at the sum of the daily rates of the bands looked up, which tile |
| PriceHistory.LooksUpTheLatestVersion | src/storage-rates/infrastructure/mysql-storage-rate.repository.ts:32-46 | the lookup answers exactly the bands of the rows of the latest version at or before the instant, by first day, and nothing exactly when there is none |
| PriceHistory.QuotedByTheDay | src/packages/infrastructure/tiered-storage-fee.policy.ts:24-32 | the quote is the one amount that sums, for each day begun, the rate in the rows of that version |
| PriceHistory.PublishedTakesEffect | src/storage-rates/infrastructure/mysql-storage-rate.repository.ts:48-83 | a published version prices its size from its instant until the next |
| StorageRateTable.LaterRowsLeaveThePastAlone | src/storage-rates/infrastructure/mysql-storage-rate.repository.ts:32-46 | rows with a later instant change no lookup for an earlier one |
| StorageRateTable.QuoteOfClamped | src/packages/application/retrieve-package.service.ts:87-95 | the policy quotes the same for the reading and for its clamp |
| StorageRateTable.RateTable.GroupRows | src/storage-rates/infrastructure/mysql-storage-rate.repository.ts:99-105 | the groups, in order of first insertion, concatenate to the rows, one group a version |
| StorageRateTable.RateTable.ListVersions | src/storage-rates/infrastructure/mysql-storage-rate.repository.ts:85-124 | exactly one schedule a version, newest first, and nothing but the rows |
| StorageRateTable.PublishedReadsBack | src/storage-rates/infrastructure/mysql-storage-rate.repository.ts:85-124 | a published schedule is listed with exactly its bands, ids, order and timestamps |
| PriceHistory.ListsExactlyTheVersions | src/storage-rates/infrastructure/mysql-storage-rate.repository.ts:85-124 | newest first, each version of a size asked for once, with all its rows and no other |
| Listing.PackageOrderBy | src/packages/infrastructure/mysql-package-listing.repository.ts:125-131 | the field asked for first, the id last, the tiebreaker between |
| Listing.LockerOrderBy | src/lockers/infrastructure/mysql-locker.repository.ts:208-214 | the same for lockers |
| Listing.ListingOrderIsTotal | src/packages/infrastructure/mysql-package-listing.repository.ts:118-131 | ordered by columns that end in the id, rows with distinct ids have one possible answer, nulls included |
| Listing.InstantsSortNullsFirst | src/packages/infrastructure/mysql-package-listing.repository.ts:122-131 | parcels without the instant come first going up and last going down, the others by it |
| Listing.ResolvePageRequest | src/shared/pagination/page.ts:31-54 | the limit is clamped to 1..MAX and the offset to at least 0, both cut to whole numbers; what is not finite falls back |
| Listing.PagesCoverEachRowOnce | src/shared/pagination/page.ts:31-41 | pages at successive offsets, each from a query of its own, show every row exactly once |
| Listing.TiesLoseRows | src/packages/infrastructure/mysql-package-listing.repository.ts:118-124 | without the tiebreakers, two queries may show one row twice and the other never |

## Left out

- HTTP, authentication, configuration, migrations as a runner, currency text and view mapping.
- How codes, ids and digests are made: a code and an id are inputs, the hash is any function.
- Redis outages: the limiters then fail open, so the limiter bounds are for runs without one.
- MySQL's lock manager, gap locks and deadlocks. Kept are the unique keys, the guarded updates, all or
  nothing transactions, and that an allocating query skips rows other transactions hold.
- When several unique keys reject an insert, the one named is any of them.
- Liveness of storing under contention: a call may lose three races while a locker is free.
- Decommissioning and locker edits under interleaving: they read, then write without a condition,
  so each is a single step here.
- Overlap of publishing with itself: publishing a version is a single step, on the one clock.
- A re-issue's effect on a retrieval that compared its code before the re-issue committed.
- Columns nothing here depends on (`trackingRef`, `createdAt` of parcels), listing filters and counts.
- Precision of JavaScript numbers beyond 2^53, and stays longer than 2^26 days.
- LockerBank.Bank.Others: stands for the rest of the system by its contract, not by its body.
- LockerBank.Bank.Retrieve: its last part is `Collect`, that of a re-issue `Issue`; the source writes each
  service as one function.
- Allocation.FirstFit: the walk is over one station's index of lockers in service; how MySQL keeps
  its index up to date is not modelled.
