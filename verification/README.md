# Verified models of the Solend liquidator and its client libraries

Dafny models of six parts of the repository, with the properties they are there for proved for all inputs
and all interleavings.

1. **The liquidation round** (`Capsule`, `Round`, `RoundInvariant`, `RoundFacts`, `RoundProgress`, `Runs`,
   `Liquidator`). A round of `process_markets` is a state machine whose steps are the atomic actions of its
   tasks: clone the capsule, finish a fetch, persist, snapshot, decide, attempt, write back. Shared `Arc`s
   are indices into a heap that only grows, so replacing an entry and writing through it are different
   things in the model. Writers for one market may run before another market's task has cloned the capsule,
   and write-backs run while later tasks are still busy. The results: every interleaving that completes ends
   in the same views (confluence); a decision is computed from the values persisted in its own round
   (snapshot isolation); at most one attempt per obligation and round, made exactly when there is cause and money (attempt safety); a
   round can complete if and only if no reply makes a task panic, and no run goes on for ever; over any
   number of rounds the cache keeps its shape. `Liquidator` holds the imperative form, a class with the
   capsule's methods and `ProcessMarkets` itself, proved to reach exactly the one result.
2. **Refresh, health test, selection, plan** (`Arithmetic`, `FixedPoint`, `Lending`, `Sums`, `Refresh`,
   `RefreshFacts`, `PricingFacts`, `Selection`, `Plan`, `PlanFacts`). The two accumulation loops in truncating 192-bit fixed point, the
   comparison that flags an obligation, the choice of the last entry of a stable sort, and the instruction
   list whose reserves are looked up by token symbol.
3. **The oracle history ring** (`HistoryBuffer`). Two binary searches over a rotated, possibly half-filled
   array against the chronological list of retained rows.
4. **The lending instruction codec** (`Bytes`, `InstructionCodec`, `CodecFacts`), all nineteen variants.
5. **Decimal strings and account layouts** (`DecimalStrings`, `Layout`, `ObligationLayout`,
   `ObligationPack`). The account format is written once, as a predicate that leaves padding open; the
   program's packer, the Rust unpacker and the TypeScript parser are each compared with it.
6. **Test.toml inheritance** (`TestToml`, `TestTomlFacts`, `TestTomlSettings`). The in-place merge, its associativity, and the
   recursion through `extends` flattened into one left-to-right merge.

A method that loops or updates state is tied by its `ensures` to a function; the lemmas in the modules named
`...Facts` are about that function. `dafny verify dfyconfig.toml` checks everything.

## Where code, comments and expectations differ

- `liquidate_and_redeem` prints a failed broadcast and still returns `Ok` (`solend-liquidator/src/client.rs:681-690`),
  so "after a successful attempt" means: after the transaction was handed to the node, whatever it answered. The
  answer is one of the replies, and no run depends on it (`BroadcastIgnored`).
- The error `ReservesAreNotIdentified` is unreachable: the two `find_where` calls by the same symbols panic
  first (`PlanExists`).
- Reserves are resolved by token symbol. That leads back to the selected reserve exactly when no other
  reserve of the market carries the symbol (`SymbolRoundTrip`), and `SharedSymbolMisdirects` is a market where it does not.
- The health test asks for a non-zero limit, and each deposit's weight is truncated on its own. A debt above the
  exact limit therefore goes unflagged exactly when no single deposit has market value * threshold of 100 or more
  (`FlaggedExactly`), in particular when there are no deposits (`NoDepositsNeverFlagged`).
- `lower_bound` promises the previous row for a timestamp. When rows share a timestamp that occurs in the slice that
  decides, it returns the first of them in that slice, a backward scan the last (`DecidedRows`); the two agree
  exactly when these are the same row or the timestamp does not occur (`LowerBoundRefinesScan`).
- `merge` never looks at the right side's `shutdown_wait` once the left has a test section, although it does
  so for `startup_wait`. `ShutdownOverridden` gives the exact condition under which this is harmless,
  `ShutdownLost` a pair of files where it is not.
- The TypeScript parser never rejects an account for its position counts, where the Rust reader panics. What it
  returns is what the bytes encode exactly when the counts fit the flat data (`EncodesExactly`). Otherwise the
  positions whose fields lie within the flat data are still read as they stand and no others are
  (`DepositHeldExactly`, `BorrowHeldExactly`); those wholly beyond it come out as zeros.

## That the assumptions can be met

`CompletesIffPanicFree` and `ProcessMarkets` produce complete runs for every panic-free round, so the theorems
about complete runs are about something; `RegisteredBetweenRounds` gives the first memory of a history.
`UnitObligationSelected` is a refresh that succeeds and is flagged, `SharedSymbolMisdirects` a decision with
configured feeds and a plan. `PackIntoSlice` makes an account that encodes any value that fits, and `RingHolds` covers
every ring an append history reaches.

## Model

| member | source | states |
|---|---|---|
| `RoundInvariant.RunKeepsInv` | `solend-liquidator/src/helpers.rs:29-259` | every state any interleaving reaches satisfies the round invariant: the heap only grows, markets never come or go, clones, fetched data, persisted entries, decisions, attempts and write-backs each stand in the stated relation to the round's start and replies |
| `RoundInvariant.PersistKeepsInv` | `solend-liquidator/src/helpers.rs:43-59` | a persist writer keeps the invariant although other markets' tasks may not have cloned the capsule yet |
| `RoundInvariant.WriteBackKeepsInv` | `solend-liquidator/src/helpers.rs:231-255` | a write-back keeps the invariant although later tasks are still running: it changes one key of one market |
| `RoundInvariant.SnapshotReadsPersisted` | `solend-liquidator/src/helpers.rs:61-86` | what a task reads through its snapshot is what the round persisted |
| `RoundFacts.Confluence` | `solend-liquidator/src/helpers.rs:29-259` | any two complete runs of one round, however interleaved, leave every market with the same view, the one the start and the replies determine |
| `RoundFacts.CompleteIsResult` | `solend-liquidator/src/helpers.rs:231-259` | a complete run holds, for each market, its refetched obligations with every finished attempt's reply in place of its own entry |
| `RoundFacts.RoundResultUnique` | `solend-liquidator/src/helpers.rs:29-259` | the result of a round is a function of its start and replies |
| `RoundFacts.ResultFromReplies` | `solend-liquidator/src/helpers.rs:29-259` | the result of a complete run in terms of the replies alone: each market is initialised and holds the persisted accounts, reserves and feeds, except that an obligation whose liquidation was due holds the account read back for it |
| `RoundFacts.PersistedFromReplies` | `solend-liquidator/src/client.rs:801-833` | what a market is persisted as in terms of the replies alone: the accounts re-read for its keys, or everything first listed, with the listed reserves and the feeds; each obligation under its own key |
| `RoundFacts.SnapshotIsolation` | `solend-liquidator/src/helpers.rs:61-86` | at any point of any interleaving a snapshot still reads the obligation, reserves and feeds persisted this round, and every decision taken is the decision on them |
| `RoundFacts.AttemptsSafe` | `solend-liquidator/src/helpers.rs:94-105` | at most one attempt per market and obligation in a round, each with a successful refresh, borrowed > unhealthy > 0 and a non-zero balance |
| `RoundFacts.AttemptedExactly` | `solend-liquidator/src/helpers.rs:80-210` | when a round has returned, an obligation was attempted if and only if its refresh on this round's data succeeded and flagged it and the balance was non-zero |
| `RoundFacts.SendsSafely` | `solend-liquidator/src/helpers.rs:158-204` | whatever becomes of the task afterwards, a transaction is sent only with warrant and only by a task not yet in the log |
| `RoundFacts.LogsWhatWasSent` | `solend-liquidator/src/helpers.rs:196-217` | an attempt that finishes appends to the log exactly what it sent, if anything |
| `RoundFacts.BroadcastIgnored` | `solend-liquidator/src/client.rs:681-690` | two rounds that differ only in what the node answered to the transactions have the same runs, step for step |
| `RoundFacts.ReplacedOnlyAfterAttempt` | `solend-liquidator/src/helpers.rs:206-252` | a live entry differs from the persisted one only after a recorded attempt on that obligation |
| `RoundFacts.AttemptsHitSelection` | `solend-liquidator/src/helpers.rs:135-204` | over markets with unique symbols and addresses every transaction sent refreshes each reserve once with its configured price accounts, then the obligation, creates exactly the missing destination accounts, and closes on the selected deposit and borrow with the balance that was read and every account taken from the reserves configured at their addresses |
| `RoundProgress.Progress` | `solend-liquidator/src/helpers.rs:29-259` | in every reachable state of a panic-free round that has not returned some step is enabled |
| `RoundProgress.RunsAreBounded` | `solend-liquidator/src/helpers.rs:29-259` | a run takes at most four steps per market and three per obligation |
| `RoundProgress.CanFinish` | `solend-liquidator/src/helpers.rs:29-259` | every run of a panic-free round can be extended to a complete one |
| `RoundProgress.CompletesIffPanicFree` | `solend-liquidator/src/client.rs:263-419` | a round can complete if and only if no reply makes a task panic: listings and accounts that do not unpack, feeds that cannot be read, token accounts, balances, blockhashes, failed lookups and missing read-backs |
| `RoundProgress.CanRefetchExactly` | `solend-liquidator/src/client.rs:801-833` | a market's fetch ends exactly if it is registered, its feeds and reserves can be read, and so can each known account, or the first listing |
| `RoundProgress.FinishesExactly` | `solend-liquidator/src/helpers.rs:160-216` | a task's attempt ends exactly if its obligation is not flagged, or its token account and balance are there and, unless the balance is zero, so are its lookups, a blockhash and the read-back |
| `Capsule.ViewStable` | `solend-liquidator/src/client.rs:779-784` | allocating new cells leaves the meaning of every existing entry as it was |
| `Capsule.CollectedAccounts` | `solend-liquidator/src/client.rs:263-299` | in whatever order the update tasks finish, the map holds exactly the accounts of the requested keys, each under its own key |
| `Capsule.FetchMeans` | `solend-liquidator/src/client.rs:801-833` | the cells a fetch allocates hold the accounts re-read for the known keys, or, the first time, exactly the listed keys each with its last listed account (none if the listing failed), the listed reserves (none if that failed) and the feeds |
| `Capsule.FetchedFromReplies` | `solend-liquidator/src/client.rs:301-419` | the same of the persisted view, on the replies alone |
| `Runs.RegistrationOrderIrrelevant` | `solend-liquidator/src/client.rs:932-948` | the start-up tasks give the same empty, uninitialised entries in any order |
| `Runs.RoundKeeps` | `solend-liquidator/src/client.rs:950-953` | a complete round keeps the set of markets, the match of keys and `pubkey`s and the key sets of initialised markets |
| `Runs.CacheInvariant` | `solend-liquidator/src/client.rs:921-953` | over any number of complete rounds from start-up: markets never change, `initialized` turns true with the first round and stays, every obligation sits under its own key, key sets are constant from the first round on |
| `Runs.HistoryAttemptsSafe` | `solend-liquidator/src/client.rs:950-953` | attempt safety in every round of every history |
| `Liquidator.MarketsCapsule.UpdateInitially` | `solend-liquidator/src/client.rs:887-892` | the whole new contents: one more empty entry with cells of its own |
| `Liquidator.MarketsCapsule.UpdateMarketDataFor` | `solend-liquidator/src/client.rs:873-880` | replaces a known market's data and sets `initialized`; an unknown market changes nothing |
| `Liquidator.MarketsCapsule.UpdateDistinctObligationFor` | `solend-liquidator/src/client.rs:905-914` | points one key of a known market at a new cell; no old cell is written |
| `Liquidator.MarketsCapsule.FetchMarketData` | `solend-liquidator/src/client.rs:801-833` | returns exactly the accounts, reserves and feeds of the replies if and only if the listing or the known keys, the reserves and the feeds can all be read; otherwise it panics |
| `Liquidator.FetchAll` | `solend-liquidator/src/helpers.rs:29-41` | the fetch phase is a run of the state machine; it stops only if some market cannot be refetched |
| `Liquidator.PersistAll` | `solend-liquidator/src/helpers.rs:43-59` | the persist phase is a run that persists every market and changes nothing else |
| `Liquidator.DecideTask` | `solend-liquidator/src/helpers.rs:80-151` | the task that reads the capsule through its snapshot returns the decision on the persisted values |
| `Liquidator.AttemptLiquidation` | `solend-liquidator/src/helpers.rs:160-217` | does what the attempt step does, for whatever order the reserve set is drained in, and aborts only if a reply or lookup is missing |
| `Liquidator.WriteBackAll` | `solend-liquidator/src/helpers.rs:231-259` | writes every pending update back, each exactly once |
| `Liquidator.ProcessMarkets` | `solend-liquidator/src/helpers.rs:18-262` | returns normally if and only if the round is panic-free, and then leaves the result every interleaving leaves, with attempts that are warranted and at most one per obligation |
| `Refresh.RefreshDeposits` | `solend-liquidator/src/binding.rs:36-86` | the in-place deposit loop computes the fold over all positions; the first failing position decides the error |
| `Refresh.RefreshBorrows` | `solend-liquidator/src/binding.rs:88-129` | the same for the borrow loop, which accrues interest before it prices |
| `Refresh.RefreshObligation` | `solend-liquidator/src/binding.rs:21-139` | the refreshed copy, its totals and the two lists |
| `RefreshFacts.DepositsClosedForm` | `solend-liquidator/src/binding.rs:36-86` | the loop succeeds if and only if every position can be priced and the three exact sums fit, and then the totals are those sums |
| `RefreshFacts.BorrowsClosedForm` | `solend-liquidator/src/binding.rs:88-129` | the same for borrows |
| `RefreshFacts.RefreshReordered` | `solend-liquidator/src/binding.rs:36-138` | permuting deposits and borrows changes neither whether the refresh succeeds nor any of the four totals |
| `RefreshFacts.TotalsAreSums` | `solend-liquidator/src/binding.rs:36-138` | totals are the sums of the values stored in the positions and of those in the lists; entry i of each comes from position i |
| `RefreshFacts.HealthTestErrorBound` | `solend-liquidator/src/binding.rs:67-76` | with n deposits and exact weighted sum E the limit lies in (E - n, E]; a debt above E with a non-zero limit is flagged, every flagged debt is above E - n |
| `RefreshFacts.FlaggedExactly` | `solend-liquidator/src/helpers.rs:99-105` | a debt above the exact limit is flagged if and only if some deposit has market value * threshold of 100 or more |
| `RefreshFacts.LimitVanishes` | `solend-liquidator/src/binding.rs:67-76` | the computed limit is zero if and only if no deposit has |
| `RefreshFacts.NoDepositsNeverFlagged` | `solend-liquidator/src/helpers.rs:99-105` | so without deposits nothing is flagged |
| `RefreshFacts.TotalsOrdered` | `solend-liquidator/src/binding.rs:67-76` | allowed <= unhealthy <= deposited whenever every reserve has LTV <= threshold <= 100 |
| `RefreshFacts.InterestNeverLowersDebt` | `solana-program-library/token-lending/program/src/state/obligation.rs:324-344` | accruing interest never lowers a debt and leaves it at the reserve's rate |
| `RefreshFacts.PricedWeights` | `solend-liquidator/src/binding.rs:67-76` | a deposit weighs value * LTV / 100 in the borrow limit and value * threshold / 100 in the liquidation limit, each truncated once |
| `PricingFacts.DepositNeverOvervalued` | `solend-liquidator/src/binding.rs:55-65` | after all truncations a deposit's value is at most amount / rate * price / 10^decimals, and below it by less than one unit plus one truncated unit of liquidity |
| `PricingFacts.DepositPricedExactly` | `solend-liquidator/src/binding.rs:37-76` | when a deposit can be priced (reserve and feed known, value exists, both weights fit) and its exact value and weights; which error otherwise |
| `PricingFacts.CollateralValueExactly` | `solend-liquidator/src/binding.rs:55-65` | the value exists exactly for at most 19 decimals, an existing non-zero rate and a product below 2^192, and is amount / rate * price / 10^decimals with two truncations |
| `PricingFacts.DecimalsExactly` | `solend-liquidator/src/binding.rs:55-57` | a power of ten fits 64 bits exactly up to 19 decimals |
| `PricingFacts.ScaleAndWidths` | `solana-program-library/token-lending/program/src/math/common.rs:6-12` | a wad is 10^18 and a percent its hundredth; amounts, rates and decimals have 64, 128 and 192 bits |
| `PricingFacts.TotalSupplyExactly` | `solana-program-library/token-lending/program/src/state/reserve.rs:434-438` | available plus borrowed minus fees, failing exactly on overflow or a negative result |
| `PricingFacts.ExchangeRateIsRatio` | `solana-program-library/token-lending/program/src/state/reserve.rs:598-610` | the rate exists exactly if that supply does and the ratio fits 128 bits; it is minted / supply truncated once, and one when either is zero |
| `PricingFacts.BorrowValueTruncatedOnce` | `solend-liquidator/src/binding.rs:105-126` | a debt's value is accrued amount * price / 10^decimals truncated once, the same in position and list |
| `PricingFacts.BorrowPricedExactly` | `solend-liquidator/src/binding.rs:89-126` | when a debt can be priced, and everything its position and list entry then hold: the reserve's rate, the amount grown by the truncated ratio of the rates, its value, the feed's mint and symbol; which error otherwise |
| `PricingFacts.InterestExactly` | `solana-program-library/token-lending/program/src/state/obligation.rs:324-344` | a falling rate is an error of its own; otherwise the debt becomes owed * (rate / before) with both truncations, failing exactly on overflow or a zero rate before |
| `PricingFacts.InterestAtMostProportional` | `solana-program-library/token-lending/program/src/state/obligation.rs:324-344` | accrued interest is at most proportional to the growth of the cumulative rate |
| `Selection.Decide` | `solend-liquidator/src/helpers.rs:85-150` | the body of a decision task computes the decision function |
| `Selection.SortStablyCorrect` | `solend-liquidator/src/helpers.rs:122-125` | the sort yields an ascending list that keeps the order of equal values and loses nothing |
| `Selection.LastOfStableSort` | `solend-liquidator/src/helpers.rs:122-128` | the last element of any stable sort is the last maximum of the original list |
| `Selection.SelectionIsLastMaximum` | `solend-liquidator/src/helpers.rs:99-136` | a decision is made if and only if the refresh succeeds and the health test passes, so the empty-list exits are dead; both choices have maximal, positive value and are the last to attain it |
| `Plan.GetTokenOracleData` | `solend-liquidator/src/client.rs:129-159` | the shared map after one insertion per priced reserve, in completion order |
| `Plan.OraclesFollowConfig` | `solend-liquidator/src/client.rs:230-239` | each feed is keyed by its reserve's address and carries that reserve's symbol and mint; a key is present exactly if a task for it had a price |
| `Plan.OracleOrderIrrelevant` | `solend-liquidator/src/client.rs:138-158` | with distinct addresses the map does not depend on the order in which tasks finish |
| `Plan.FindWhereFirst` | `solend-liquidator/src/client.rs:693-699` | the first element that satisfies the predicate, and a panic exactly when there is none |
| `Plan.SymbolMapLast` | `solend-liquidator/src/client.rs:581-587` | the map holds, for each symbol, the last reserve that has it |
| `Plan.PlanExists` | `solend-liquidator/src/client.rs:536-597` | a plan exists exactly if every lookup succeeds, whatever order the set yields; otherwise a lookup panics and the dedicated error is never returned |
| `Plan.Liquidate` | `solend-liquidator/src/client.rs:513-660` | builds the plan for some order of the obligation's distinct reserves; every account of it is the one `PlanContents` says |
| `Plan.PlanContents` | `solend-liquidator/src/client.rs:536-660` | each refresh carries the price accounts of the first reserve configured at its address; the two destination accounts are created exactly where missing; all fourteen parts of the closing instruction come from the first and last reserves with the two symbols, the market and the payer |
| `PlanFacts.PlanOrder` | `solend-liquidator/src/client.rs:536-660` | each distinct reserve is refreshed exactly once and no other, all before the single obligation refresh, whose accounts after two fixed entries are deposit reserves in order and then borrow reserves in order; the liquidation is last and occurs nowhere else |
| `PlanFacts.SelectedResolvable` | `solend-liquidator/src/client.rs:572-597` | what was selected from configured feeds can always be looked up |
| `PlanFacts.SymbolResolution` | `solend-liquidator/src/client.rs:572-591` | a reserve's own symbol leads back to it in the list search exactly if no earlier reserve has the symbol, in the map exactly if no later one has |
| `PlanFacts.SymbolRoundTrip` | `solend-liquidator/src/client.rs:572-600` | for every decision the plan exists, and it names the selected reserves if and only if no other reserve carries the symbol of either |
| `PlanFacts.UniqueSymbolsSuffice` | `solend-liquidator/src/client.rs:572-600` | with unique symbols repay and withdraw reserves are those of the selected borrow and deposit, paid from the wallet's account for the borrowed mint |
| `PlanFacts.SharedSymbolMisdirects` | `solend-liquidator/src/client.rs:581-587` | a market with a shared symbol in which the liquidation goes to the wrong reserve |
| `HistoryBuffer.LowerBoundBySplits` | `overriden/switchboard-v2-0.1.10/src/history_buffer.rs:50-53` | the binary search splits a sorted slice at the timestamp |
| `HistoryBuffer.RingHolds` | `overriden/switchboard-v2-0.1.10/src/history_buffer.rs:45-63` | after any appends the ring holds the last rows, rotated at `insertion_idx`, over unused zero rows |
| `HistoryBuffer.RetainedSlices` | `overriden/switchboard-v2-0.1.10/src/history_buffer.rs:46-64` | the slice after `insertion_idx`, if its first row is in use, followed by the slice up to it is the chronological list of retained rows |
| `HistoryBuffer.LowerBoundIsPredecessor` | `overriden/switchboard-v2-0.1.10/src/history_buffer.rs:45-77` | returns a retained row with the greatest timestamp not after the given one, and `None` exactly if all retained rows are later |
| `HistoryBuffer.DecidedRows` | `overriden/switchboard-v2-0.1.10/src/history_buffer.rs:45-77` | for every ring and timestamp: if the timestamp occurs in the deciding slice the search returns that slice's first row at it and a scan its last; otherwise both return the same |
| `HistoryBuffer.SearchSliceExactly` | `overriden/switchboard-v2-0.1.10/src/history_buffer.rs:49-59` | one slice's search returns the first row at the timestamp, or else the row where a scan stops |
| `HistoryBuffer.LowerBoundRefinesScan` | `overriden/switchboard-v2-0.1.10/src/history_buffer.rs:45-77` | agrees with a linear scan of the retained rows on whether and on which timestamp, and on the very row if and only if the deciding slice has no two different rows as its first and last at the timestamp |
| `HistoryBuffer.EqualTimestampsDiffer` | `overriden/switchboard-v2-0.1.10/src/history_buffer.rs:54-56` | the smallest ring in which search and scan return different rows |
| `InstructionCodec.Pack` | `solana-program-library/token-lending/program/src/instruction.rs:628-761` | the growing buffer ends as tag and fields in order |
| `InstructionCodec.PushConfig` | `solana-program-library/token-lending/program/src/instruction.rs:669-683` | appends the 74 bytes of a reserve configuration, field by field |
| `CodecFacts.RoundTrip` | `solana-program-library/token-lending/program/src/instruction.rs:425-625` | unpacking what was packed gives the instruction back, whatever bytes follow |
| `CodecFacts.EncodingOnWire` | `solana-program-library/token-lending/program/src/instruction.rs:628-761` | the tag byte of every instruction and the offset and little-endian value of each of its fields |
| `CodecFacts.PrefixFree` | `solana-program-library/token-lending/program/src/instruction.rs:628-761` | no encoding is a prefix of another instruction's, so packing is injective |
| `CodecFacts.Acceptance` | `solana-program-library/token-lending/program/src/instruction.rs:425-573` | unpacking fails, always with one error, exactly on empty input, a tag above 18 or too few bytes; otherwise packing the result gives the input's prefix of the tag's length |
| `DecimalStrings.StripEnd` | `src/libs/utils.ts:97-105` | the string without its trailing run of the character |
| `DecimalStrings.ToHumanDec` | `src/libs/utils.ts:78-94` | the loops build integer part, point and padded fraction, stripped of zeros and then of the point |
| `DecimalStrings.HumanDecIs` | `src/libs/utils.ts:78-94` | the human form is the integer digits, then a point and the fraction without trailing zeros if anything is left of it |
| `DecimalStrings.HumanRoundTrip` | `src/libs/utils.ts:28-94` | for every digit string a and d >= 0, converting to human form and back gives a, behind "0" and as many zeros as a is shorter than d, when it is |
| `DecimalStrings.ToBaseUnitFloors` | `src/libs/utils.ts:35-58` | for every well-formed unsigned decimal string the result denotes floor(value * 10^d) |
| `DecimalStrings.ToBaseUnitFails` | `src/libs/utils.ts:28-34` | fails exactly for a negative number of decimals or more than one point |
| `Layout.Encode` | `src/libs/layout.ts:48-56` | writes the number's low bytes, little-endian and zero-padded, and touches nothing else in the buffer |
| `Layout.ReversedIsLE` | `src/libs/layout.ts:48-49` | reversing the big-endian byte array gives as many little-endian bytes |
| `Layout.DecodeIsLE` | `src/libs/layout.ts:36-46` | reading through reversed hexadecimal digits is reading little-endian |
| `Layout.DecodeEncoded` | `src/libs/layout.ts:29-91` | decoding an encoded number gives it modulo 256^size, for every size |
| `ObligationLayout.ParsesExactly` | `src/models/layouts/obligation.ts:107-171` | a 1300-byte account with fitting counts and non-zero slot parses to a value if and only if its bytes encode that value, positions in order |
| `ObligationLayout.ParseOutcomes` | `src/models/layouts/obligation.ts:107-128` | parsing throws exactly below 204 bytes and drops exactly the accounts whose slot bytes are zero |
| `ObligationLayout.MarketFilter` | `src/libs/utils.ts:107-124` | bytes 10 to 42 are a market's key if and only if the parsed account names that market |
| `ObligationLayout.EncodesExactly` | `src/models/layouts/obligation.ts:107-171` | a 1300-byte account that parses to a value encodes it if and only if its counts fit the flat data |
| `ObligationLayout.DepositHeldExactly` | `src/models/layouts/obligation.ts:130-137` | whatever the counts, a parsed deposit is what the account holds at its place if and only if its fields lie within the flat data |
| `ObligationLayout.BorrowHeldExactly` | `src/models/layouts/obligation.ts:139-148` | the same for a parsed borrow, whose place is behind all counted deposits |
| `ObligationLayout.PhantomDeposits` | `src/models/layouts/obligation.ts:130-137` | a counted deposit that begins beyond the flat data is a zero key with zero amounts |
| `ObligationLayout.PhantomBorrows` | `src/models/layouts/obligation.ts:139-148` | so is a counted borrow that does |
| `ObligationPack.PackIntoSlice` | `solana-program-library/token-lending/program/src/state/obligation.rs:354-435` | panics exactly on a decimal above 128 bits or counts that do not fit; otherwise, over any old contents, the bytes encode the value, the TypeScript parser returns it, and padding and tail keep their old bytes |
| `ObligationPack.UnpackFromSlice` | `solana-program-library/token-lending/program/src/state/obligation.rs:438-526` | accepts exactly known versions with fitting counts and a boolean stale byte, panics exactly on a known version with counts that do not fit, returns what the bytes encode, and agrees with the TypeScript parser |
| `TestToml.MergeEntries` | `overriden/anchor/cli/src/config.rs:738-746` | the loop that replaces the first entry with the same address or pushes computes the upsert |
| `TestToml.MergeScripts` | `overriden/anchor/cli/src/config.rs:716-726` | the loop over the other side's scripts leaves the union in which that side wins |
| `TestToml.MergeSection` | `overriden/anchor/cli/src/config.rs:728-765` | the whole merged test section |
| `TestToml.MergeValidator` | `overriden/anchor/cli/src/config.rs:940-1001` | all fourteen fields of the merged validator: the right side's scalar where it has one, entry lists upserted |
| `TestToml.Accumulator.Merge` | `overriden/anchor/cli/src/config.rs:714-776` | the new value of the file merged into, in place, with its own `extends` kept |
| `TestToml.FromPath` | `overriden/anchor/cli/src/config.rs:639-654` | the recursion through the bases with a shared accumulator computes the recursive specification, with the path that could not be read as its error |
| `TestTomlFacts.FindUpsert` | `overriden/anchor/cli/src/config.rs:738-746` | after an upsert an address has the last payload given for it, or the one it had |
| `TestTomlFacts.UpsertOrder` | `overriden/anchor/cli/src/config.rs:738-746` | an upsert keeps every entry's place and adds new addresses behind, in the order they are given |
| `TestTomlFacts.AssociatesExactly` | `overriden/anchor/cli/src/config.rs:738-746` | upserts re-associate around a list if and only if it names no address twice |
| `TestTomlFacts.CloneAssociative` | `overriden/anchor/cli/src/config.rs:965-982` | entries that are only an address re-associate unconditionally |
| `TestTomlFacts.MergeAssociative` | `overriden/anchor/cli/src/config.rs:714-776` | merging files is associative around a file without repeated addresses |
| `TestTomlFacts.MergeAssociatesExactly` | `overriden/anchor/cli/src/config.rs:714-776` | and only around such a file |
| `TestTomlSettings.MergeOverrides` | `overriden/anchor/cli/src/config.rs:714-776` | every setting (startup wait, scripts, genesis programs, accounts, clones and the twelve validator options) is the right file's where it gives one and the left file's otherwise; `extends` stays the left file's |
| `TestTomlSettings.FoldGives` | `overriden/anchor/cli/src/config.rs:940-1001` | merging a list of files gives each setting the value of the last file that gives it one |
| `TestTomlSettings.ResolvedGives` | `overriden/anchor/cli/src/config.rs:639-654` | so does reading a path, over the files in post-order, and the file's own value comes first |
| `TestTomlSettings.LaterBaseWins` | `overriden/anchor/cli/src/config.rs:647-653` | of two bases that give a setting the one named later wins, unless the file itself gives it |
| `TestTomlFacts.MergeKeepsUnique` | `overriden/anchor/cli/src/config.rs:714-776` | merging files without repeated addresses gives one without |
| `TestTomlFacts.AcyclicExactly` | `overriden/anchor/cli/src/config.rs:647-652` | the ranking the recursion descends by exists if and only if no file reaches itself through its bases |
| `TestTomlFacts.Flattening` | `overriden/anchor/cli/src/config.rs:639-654` | with unique addresses in each file and no cycle, reading a path gives the left-to-right merge, starting from the empty file, of all files reached, in post-order with repetitions, or fails on one of them that cannot be read |
| `TestTomlFacts.ResolvedIsUnique` | `overriden/anchor/cli/src/config.rs:639-654` | the result names no address twice, however often a base is reached |
| `TestTomlFacts.WaitsOfFold` | `overriden/anchor/cli/src/config.rs:728-765` | over a list of files the startup wait is the last one set, the shutdown wait that of the first file with a test section |
| `TestTomlFacts.ShutdownOverridden` | `overriden/anchor/cli/src/config.rs:728-765` | the extending file has the last word on the shutdown wait exactly if it sets none, the base has no test section, or both agree |
| `TestTomlFacts.ShutdownLost` | `overriden/anchor/cli/src/config.rs:728-765` | two files whose own `shutdown_wait` is dropped |

## Left out

- RPC, HTTP, signing, retries, sleeping, printing and the performance meter: replies are arbitrary inputs, fixed per task and round; a reply that panics on `unwrap` means the round does not complete.
- The program configuration is taken to be present and its addresses to parse, so those unwraps do not panic.
- Atomicity of the model's steps: one fetch reads all its replies in one step, and a decision task takes its three read locks in one step. Both only read cells that no step writes, so the machine still admits every order of the effects; it admits interleavings the runtime would not schedule.
- Oracle prices: decoding Pyth and Switchboard accounts rests on floating point; of a feed the model keeps key, symbol, mint and a price. Within a round a market's feeds are one reply; that they do not depend on task order is proved separately.
- Addresses are keys already parsed from base58, and associated token accounts are an injective pair of owner and mint.
- Memory safety and update in place of an obligation inside its `Arc`: the refresh works on its own clone, modelled as a value; the two loops of `refresh_obligation` are two methods.
- The ring's writer runs on chain and is not in the repository; it is taken to append positive, non-decreasing timestamps at the next slot. The crate that provides `lower_bound_by` is not part of this model; its halving search is written out.
- The account-meta builders of `instruction.rs` apart from `refresh_obligation`, and the on-chain processor.
- The TypeScript layout library is not part of this model: its slices clamp, its byte reads throw past the end, and a key made from fewer than 32 bytes is padded on the left.
- `ReserveLayout`, `isReserve` and the refresh written in TypeScript: the declared fields do not add up to the account length and the arithmetic rests on BigNumber rounding.
- Path canonicalisation, TOML parsing, directory walking and defaults in `config.rs`: files are a map from canonical path to parsed content, and everything that cannot be read or parsed is missing from it.
- TestToml.FromPath: is stated for files without a cycle of bases, and for no fewer (`AcyclicExactly`); on a cycle the original recurses without end and has no result to state.
- React components, documentation, command-line tools, avm, CPI wrappers, VRF data and the smaller Anchor pieces, which would add only easy members.
