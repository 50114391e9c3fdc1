# Grindstone: verified models of its data and run protocols

Grindstone keeps market data and chart drawings on disk and runs backtests in a process of its own. This project
models four of its cores in Dafny and proves what they promise over every input, every run and every interleaving.

**Coverage and backfill** (`Days`, `Coverage`, `CoverageFacts`, `Chunking`, `Backfill`, `BackfillFacts`,
`BackfillRuns`). The claim table `data_cover` is a map held by the class `Ledger`, next to a ghost history of all its
marks. A plan is recomputed from the table by `gaps` and a greedy chunker; executing a chunk marks each of its days
once, and the verdict depends on the shape of the provider's answer. Proved: where every `absent` came from, what
`attempts` counts, how long a used-up day rests, that `gaps` is exact, that the chunks are an optimal partition, that
settled days are never touched, that plan and run cycles end against any provider, and what a provider's horizon can
cost at most.

**Incremental stores** (`Civil`, `OptStore`, `ChainImport`, `SyncFacts`, `StoreMix`, `Depth`, `DepthFacts`,
`DeepQueue`). Two writers fill one table of option quotes: a watermark-driven sync of recorded snapshots with one
transaction per day, and a file import. A third store keeps daily history for good by fetching a head and a tail, and a queue decides which
symbol is filled next. Proved: crash and resume equal one uninterrupted sync, syncing at any points refines one sync
at the end, the kept history never has a hole (with the exact condition on the feeds), and each accepted request gets
one fill with any number of workers.

**Backtest runs** (`Backtests`, `Manager`, `ReportKeys`, `RunKeys`). Starts, cancels, process exits, reader threads,
deletions and row ids that SQLite gives out again are the steps of a state machine; the methods of `BacktestManager`
are those steps. Proved over every interleaving: the life of a row, exactly when it reads `done`, `cancelled` or
`error`, when a cancel is lost, when a second runner can appear, that a report key is used once and in time, and exactly when it opens nothing but the
run it was asked for.

**Chart documents** (`ChartItems`, `ChartObjects`, `ChartMeaning`, `ChartFacts`). The strict reader of a chart document
and its stored form. Proved: a document is accepted exactly when the JSON says it value by value and it is well formed,
reader and writer undo each other, ids are unique across all five collections, constraints never dangle, and the table
gives back what was put.

`Drawdown` holds the one-pass worst drawdown of a price window. `Common` holds helpers.

## How things are modelled

- A calendar day is an integer with day 0 a Monday; `Civil` ties `yyyymmdd` numbers to real calendar dates.
- A SQLite table is a map in a class field; one `with con:` block is one step. Answers of providers and feeds, clock
  readings, launch results and the stop signal are parameters, so every statement is about all of them.
- A method that changes state states its whole new state as a function of the old one. The lemmas then speak about
  those functions, over histories of marks, cycles, visits or steps.
- A process that was sent a kill and has not ended is `Killed`, and `poll()` still finds it alive. "At most one runner"
  is proved twice: for runners that were not killed, and for all that `poll()` finds alive.
- Prices and strikes are reals, and Python's `round` goes to the even neighbour on a tie.

## Where code and documentation disagree, or a promise fails

- The docstrings of `plan` and `gaps` say oldest first; the code is newest first, and so is the model
  (code/backend/backfill.py:104-107, code/backend/coverage.py:277-278).
- A provider's horizon costs days. Over any series of cycles a day before the first one carried is written off exactly
  when the provider is an outright authority and an executed chunk that holds the day straddles the horizon and got
  rows (`BackfillRuns.HorizonLossExactly`). The loss stays inside `chunk_days - 1` days
  (`BackfillRuns.HorizonLossIsBounded`), and for every chunk a plan can hold all of them can be lost
  (`BackfillRuns.HorizonBoundIsMet`).
- A successful cancel is recorded as `cancelled` exactly when no later run was launched before the cancelled run's
  reader looked at the mark, and that reader then wrote the row without failing (`Backtests.CancelOutcome`, about the
  row over every run). `Backtests.CancelCanBeLost` and `Backtests.CancelCanFail` are runs in which it is recorded as an
  error, one for each way.
- Two runners can be live at once, in two ways.
  - An old reader can clear a newer run's state, although the comment in `_follow` rules it out: row ids are reused
    (`INTEGER PRIMARY KEY` without `AUTOINCREMENT`), so the guard compares equal ids of different runs.
    `Backtests.StaleReaderIsPossible` reaches such a state, and `Backtests.StaleReaderMakesTwo` shows that any launch
    under an id whose reader is still there allows a second runner two steps later. Without such a launch no two
    runners are live that were not killed (`Backtests.AtMostOneRunner`).
  - A reader that fails kills its process without waiting and clears the manager, so the next launch is admitted while
    the killed process is still alive (`Backtests.FailingReaderMakesTwoAlive`, from every state in which the current
    live run's reader fails). Without either, at most one process is alive by `poll()` (`Backtests.AtMostOneAlive`).
- The kept daily history can have a hole when the broker carries two sessions or more from before the keyless feed's
  first day; `DepthFacts.NeverAGap` gives the exact condition.
- A class without bar sources (crypto) is planned as "no bar source", yet a first visit fetches and stores the keyless
  answer and never marks the symbol deep (`DepthFacts.UnservedClassIsStored`).
- The duplicate check of an import compares strikes exactly while the store keys them in thousandths:
  `ChainImport.FineStrikesCollide` loses a row, and `ChainImport.OneRowEach` says exactly when none is lost.
- Putting a document that holds only a view deletes the row (`ChartFacts.PutThenGet`), and so does putting back what
  an outdated or unreadable row reads as (`ChartFacts.GetThenPut` says exactly when). A stored row that is JSON and not
  an object makes `get` raise an error it does not catch (`ChartFacts.ChartTable.GetDoc`); `put` never stores one.
- Report keys are kept by run id, and a deletion pops the key before it removes the row. A key opens nothing but the
  run it was asked for, in every continuation, exactly when at the mint that run is still there and its own user has no
  deletion of it past the first check (`RunKeys.MintIsSafe`). From every other state in which the manager is idle and
  the id is the next to be given out, whether the row is still there or gone, the key opens the report of the next run
  under that id once that run is done, if it has a file of the same name (`RunKeys.LateMintOpensAnother`);
  `RunKeys.LateMintIsPossible` reaches such a state.
- A file whose header repeats a name keeps the last cell of that name, so the order of its columns matters;
  `ChainImport.ColumnOrderIsFree` says exactly when two orders give one record.

## Model

| member | source | states |
|---|---|---|
| Days.TradingDays | code/backend/coverage.py:98-114 | the weekdays of the range, each once, oldest first, and nothing else |
| Days.SortedDescending | code/backend/backfill.py:91-91 | sorting a newest-first list of missing days turns it round |
| Coverage.Ledger.Mark | code/backend/coverage.py:117-150 | the new table: only this row changes, an unearned absence is downgraded, attempts restart or grow |
| Coverage.Ledger.StateOf | code/backend/coverage.py:195-201 | the stored state, or unknown |
| Coverage.Ledger.ShutDays | code/backend/coverage.py:236-276 | the three queries together shut out exactly the days that are not open |
| Coverage.Ledger.FindGaps | code/backend/coverage.py:204-291 | the list of `Gaps`, whose meaning is in GapsExact and UntriedComesFirst |
| Coverage.Ledger.ReconcileDays | code/backend/coverage.py:316-368 | afterwards each day given is a `have` with one row, no failed try and this second; every other row is as before; the number returned is the number of days that are not blank |
| Coverage.Ledger.MarkDay | code/backend/coverage.py:371-388 | one answered day is a `have`, or an absence only for an outright authority |
| Coverage.Ledger.RecordBarDays | code/backend/coverage.py:371-388 | every asked day is marked once, and the three counts are the counts of those marks |
| CoverageFacts.AttemptsCountTheUnresolvedRun | code/backend/coverage.py:134-150 | over every history, attempts is the length of the run of unresolved answers that ends it |
| CoverageFacts.RowIsTheLastMark | code/backend/coverage.py:117-150 | a stored row is what its last mark was entitled to write, and a row exists only if marked |
| CoverageFacts.HeldWasMarked | code/backend/coverage.py:153-174 | data held for a series was marked at some step of the history |
| CoverageFacts.HasOlderMeaning | code/backend/coverage.py:153-192 | a series reaches back before a day exactly when the last mark of an older day is a `have` |
| CoverageFacts.AuthorityTable | code/backend/coverage.py:33-56 | the two Alpaca feeds are authorities outright for bars and chains, onclick earns it for chains, nobody else |
| CoverageFacts.AbsenceProvenance | code/backend/coverage.py:117-174 | a period is absent if and only if its last mark claimed so and its provider was an outright authority, or an earning one holding data for the same series at that step |
| CoverageFacts.EvidenceMayBeOverwritten | code/backend/coverage.py:153-174 | the data that earned an absence may be gone afterwards: a concrete history |
| CoverageFacts.RestWindow | code/backend/coverage.py:258-276 | 'T' against ' ' in the stored texts: a period rests longer than the span and less than a day longer |
| CoverageFacts.UsedUpThenOpenAgain | code/backend/coverage.py:258-276 | only a settled period is shut for ever; a used-up one rests over 20 hours and is open again after 44 |
| CoverageFacts.OpenExactly | code/backend/coverage.py:236-276 | for every query, exactly when a day is worth asking about, in seconds and tries |
| CoverageFacts.FetchMeaning | code/backend/coverage.py:371-388 | the row that an answer leaves for every asked day, and no other row changes |
| CoverageFacts.GapsExact | code/backend/coverage.py:204-291 | every returned day is worth asking, once; without `prefer_untried` the days come in the order asked for, and only a cut by the limit loses days, the last ones of that order |
| CoverageFacts.UntriedComesFirst | code/backend/coverage.py:278-291 | a stable partition: a failed day is returned only after every open day that has not failed, and in each group only the last days of the order are cut |
| Chunking.SplitRuns | code/backend/backfill.py:91-103 | the loop computes the greedy runs |
| Chunking.LegalExactly | code/backend/backfill.py:91-103 | a chunk spans fewer than chunk_days days and no step inside it is over five |
| Chunking.GreedyPartitions | code/backend/backfill.py:91-103 | the chunks put together are the missing days, each shorter than the cap and without a wide hole |
| Chunking.GreedyIsOptimal | code/backend/backfill.py:91-103 | no partition within the same limits has fewer chunks |
| Backfill.Plan | code/backend/backfill.py:73-107 | the plan of the table, computed by the loop; what it holds is in MissingFacts, PlanSize and PlanChunks |
| Backfill.Remaining | code/backend/backfill.py:120-126 | how many days are missing, past the plan's own limit |
| Backfill.MarkEach | code/backend/backfill.py:150-185 | every day of a chunk gets the same mark, in order, and nothing else changes |
| Backfill.SettleDays | code/backend/backfill.py:187-218 | the days of an answered chunk one by one, with the counts reported |
| Backfill.RunOne | code/backend/backfill.py:129-218 | the table, the history and the report after one chunk, for every kind of answer |
| Backfill.Run | code/backend/backfill.py:221-238 | the chunks in order until the end or the stop signal; what was done stays done |
| Backfill.RunIsItsClaims | code/backend/backfill.py:221-238 | a run is one list of marks applied in order |
| BackfillFacts.MissingFacts | code/backend/backfill.py:84-91 | the days a plan is cut from are the weekdays of the range with no settled row and fewer than three tries or 20 hours at rest, and when the limit cuts, the newest 5000 of them |
| BackfillFacts.PlanSize | code/backend/backfill.py:91-107 | a plan has max_chunks chunks, or all of them when there are fewer, and then no missing day is left out; a negative number drops that many of the oldest chunks, as a Python slice does |
| BackfillFacts.PlanIsANewestSuffix | code/backend/backfill.py:91-107 | `max_chunks` keeps exactly the last missing days, and an empty plan means nothing is missing |
| BackfillFacts.PlanChunks | code/backend/backfill.py:91-117 | planned chunks are legal stretches of missing days named by their ends, later days first |
| BackfillFacts.OnceEach | code/backend/backfill.py:187-218 | marks of different days change their own rows only, from what each row was |
| BackfillFacts.VerdictMeaning | code/backend/backfill.py:129-218 | for every answer, exactly when a day becomes have, absent, failed or unknown |
| BackfillFacts.AskedExactly | code/backend/onclick.py:53-78 | a day is asked of onclick exactly when it lies in the chunk, in the last 180 days and before today, and of anyone else when it lies in the chunk |
| BackfillFacts.ReportMeaning | code/backend/backfill.py:145-218 | which of the four reports a chunk gives, and its numbers |
| BackfillFacts.ReportsInOrder | code/backend/backfill.py:221-238 | one report per executed chunk, each on the table the earlier chunks left |
| BackfillFacts.ReportIsTheTable | code/backend/backfill.py:187-218 | the counts of a report cover the chunk, and nothing it counted was downgraded in the table |
| BackfillFacts.RunAsksOpenDays | code/backend/backfill.py:221-238 | any part of a fresh plan asks about open days of its range, each once |
| BackfillFacts.RunTouchesOnlyItsPlan | code/backend/backfill.py:221-238 | executing any prefix of a plan changes only that prefix's days and no settled row |
| BackfillFacts.PlansAvoidSettled | code/backend/backfill.py:73-107 | no plan contains a settled day |
| BackfillRuns.AskedAtMostThreeTimes | code/backend/backfill.py:153-216 | inside one rest window a day is asked about at most MAX_ATTEMPTS times, whatever is answered |
| BackfillRuns.BackfillTerminates | code/backend/backfill.py:73-216 | every asked day takes one from a measure that starts at no more than three for every weekday |
| BackfillRuns.NoWorkNoPlan | code/backend/backfill.py:84-87 | with the measure at zero the plan is empty |
| BackfillRuns.CycleAsks | code/backend/backfill.py:221-238 | a cycle with a plan and an answer asks about something |
| BackfillRuns.BackfillFinishes | code/backend/backfill.py:73-238 | plan and run cycles end within three day-asks for every weekday, against any provider |
| BackfillRuns.HorizonLossIsBounded | code/backend/backfill.py:91-216 | over all cycles no day more than chunk_days - 1 before the provider's first day is written off |
| BackfillRuns.VerdictLoses | code/backend/backfill.py:169-216 | one chunk writes off a day before the horizon exactly when its provider is an outright authority and rows came back from inside it |
| BackfillRuns.HorizonLossExactly | code/backend/backfill.py:91-216 | over all cycles a day before the horizon is written off if and only if an executed chunk that holds it straddles the horizon and got rows |
| BackfillRuns.HorizonBoundIsMet | code/backend/backfill.py:91-216 | for every chunk length up to what a plan holds, a first cycle loses the day chunk_days - 1 before the horizon |
| Civil.YmdNamesOneDate | code/backend/btdata.py:117-118 | a stored day number names one calendar date |
| Civil.YmdKeepsOrder | code/backend/btdata.py:117-118 | stored day numbers are ordered as the dates are |
| Civil.NextDayNext | code/backend/btdata.py:107-114 | calendar days are numbered one after another and weekdays go round |
| Civil.KnownDays | code/backend/btdata.py:107-114 | two dates whose weekday is known have it |
| OptStore.UpsertIsOverride | code/backend/btdata.py:407-412 | writing rows is overriding the table with what the rows alone would give |
| OptStore.LatestByDay | code/backend/btdata.py:363-375 | the dictionary after the loop over all snapshots newer than the watermark |
| OptStore.LastOfDaysStrict | code/backend/btdata.py:363-380 | one snapshot a day, in date order and in time order |
| OptStore.ByDayIsLastOfDays | code/backend/btdata.py:363-375 | the dictionary holds the last in-hours snapshot of each day under that day's date, and nothing else |
| OptStore.OrderIsDayList | code/backend/btdata.py:380-380 | going through the sorted dictionary is going through that list |
| OptStore.Store.WriteList | code/backend/btdata.py:380-420 | rows, watermark and the two counts after any number of day transactions |
| OptStore.Store.Sync | code/backend/btdata.py:350-424 | the table, the watermark and the two counts after a sync that died after any number of days, or did not die; what the rows hold is in SnapshotRows |
| OptStore.OnDayIsAPart | code/backend/btdata.py:263-302 | the rows of one day write exactly that day's part of a file |
| OptStore.Store.ImportChain | code/backend/btdata.py:222-312 | a refused import changes no row, an accepted one writes the whole file and counts its days and rows; the table after each day transaction; refused exactly for a wrong symbol or a weekend date |
| OptStore.SyncWritesSessions | code/backend/btdata.py:107-114 | a sync leaves only real weekdays in the calendar |
| SyncFacts.RestOfTheList | code/backend/btdata.py:361-420 | after k days of a sync, what is left to do is the rest of the same list |
| SyncFacts.AttemptsAddUp | code/backend/btdata.py:361-424 | attempts that die between days write, together, what one uninterrupted sync writes |
| SyncFacts.WatermarkMovesForward | code/backend/btdata.py:361-420 | the watermark never decreases, and a further sync copies nothing exactly when the list was finished |
| SyncFacts.LastOfDaysExact | code/backend/btdata.py:366-375 | a snapshot is copied if and only if no later one of its day is pending |
| SyncFacts.NoFinalSkipped | code/backend/btdata.py:361-420 | no history of visits ever steps over the last snapshot of a day |
| SyncFacts.IncrementalRefinesOneShot | code/backend/btdata.py:350-424 | syncing at any points agrees with one final sync on all its contracts, and each further contract comes from the last written snapshot of its own day that listed it, superseded later |
| SyncFacts.RunVisits | code/backend/btdata.py:350-424 | the store after any history of visits is what those visits wrote |
| SyncFacts.ImportTwice | code/backend/btdata.py:266-302 | importing again changes nothing, also after an import that died between days |
| StoreMix.LastWriterWins | code/backend/btdata.py:222-424 | after any mix of syncs and imports on any store, each row is that of the last transaction or file that listed its contract |
| StoreMix.ImportsLeaveSyncs | code/backend/btdata.py:350-424 | imports between syncs leave the watermark as the syncs alone would |
| StoreMix.RunMix | code/backend/btdata.py:121-424 | the store after any mix of syncs and imports is what those events make of it |
| StoreMix.SourcesStayApart | code/backend/btdata.py:121-131 | whatever is synced and imported, a stored source id names one source |
| SyncFacts.WritersAgree | code/backend/btdata.py:276-299 | both writers store one quote alike, and a mark lies inside its quote or is a real trade |
| SyncFacts.MarketHours | code/backend/btdata.py:107-114 | a snapshot counts on weekdays from 9:30 to 16:15, both included |
| SyncFacts.SnapshotRows | code/backend/btdata.py:382-412 | one entry per quote with an expiration, under its date, expiration, right and nearest thousandth strike, with every number as quoted; the mark is the exact middle of a quote with bid > 0 and ask >= bid, else a positive last trade, else nothing |
| SyncFacts.FileRows | code/backend/btdata.py:276-299 | the same for each row of a file, where a mark of its own is kept as given |
| SyncFacts.StoredIsLast | code/backend/btdata.py:407-412 | of entries under one key the last one is stored |
| SyncFacts.CountedIsWritten | code/backend/btdata.py:380-420 | the rows a sync counts are the rows it writes |
| ChainImport.ColumnOrderIsFree | code/backend/chainimport.py:219-244 | two orders of columns give the same record if and only if each name has the same last cell |
| ChainImport.DistinctNamesAnyOrder | code/backend/chainimport.py:219-244 | with no name repeated, reordering the columns changes no record |
| ChainImport.RowsFromCsv | code/backend/chainimport.py:219-244 | refused exactly when a required column is missing; one record per line that is not blank |
| ChainImport.RecordsExactly | code/backend/chainimport.py:236-244 | every line with something in it gives exactly one record under its line number, in file order, and no other does |
| ChainImport.CheckDupes | code/backend/chainimport.py:198-211 | accepts exactly the files in which no contract is quoted twice on a date, and names the first that is |
| ChainImport.ContractExactly | code/backend/chainimport.py:204-206 | what makes two rows one contract |
| ChainImport.AcceptedKeysDiffer | code/backend/btdata.py:284-299 | rows of an accepted file with strikes in thousandths have different store keys |
| ChainImport.OneRowEach | code/backend/btdata.py:284-308 | a file gains one stored row per parsed row exactly when no two rows share a store key |
| ChainImport.AcceptedFileIsWhole | code/backend/btdata.py:274-308 | an accepted file with strikes in thousandths is stored row by row, each with its own quote |
| ChainImport.FineStrikesCollide | code/backend/btdata.py:290-293 | finer strikes pass the duplicate check and still share a row |
| Depth.BarHist.Store | code/backend/marketdb.py:293-314 | the given days are added under their feed; the number of rows given is returned; other symbols stay |
| Depth.BarHist.Mark | code/backend/marketdb.py:359-375 | a mark that is not given stays as it was |
| Depth.BarHist.ReadSpan | code/backend/marketdb.py:341-356 | least, greatest and number of stored days, and the marks |
| Depth.BarHist.FillHead | code/backend/depth.py:212-232 | rows of the head first, then the mark |
| Depth.BarHist.FillTail | code/backend/depth.py:237-268 | the broker's tail, or the keyless one, and then the mark of the look |
| Depth.BarHist.Fill | code/backend/depth.py:189-279 | every durable state of one fill, the rows it hands over, at most one keyless fetch, other symbols untouched |
| DepthFacts.NoDuplicateWork | code/backend/depth.py:189-279 | rows handed over are rows gained; no stored day is written again or changes its feed |
| DepthFacts.OlderIsOutside | code/backend/depth.py:212-217 | the head lies strictly before everything stored |
| DepthFacts.TailIsOutside | code/backend/depth.py:246-265 | the tail lies strictly after everything stored |
| DepthFacts.MarkAfterRows | code/backend/depth.py:212-226 | at no crash point is a symbol marked deep before the head rows are stored |
| DepthFacts.UnservedClassIsStored | code/backend/depth.py:87-91 | a class without sources is never marked deep, yet its first visit stores the keyless answer |
| DepthFacts.FixedDays | code/backend/depth.py:246-252 | the two fixed days are 1 January 1970 and 1 January 2016 |
| DepthFacts.WhoIsAsked | code/backend/depth.py:52-73 | for every class, known or not, whether it has a source and whether the broker is one and is asked |
| DepthFacts.PlanExactly | code/backend/depth.py:76-109 | when a visit wants the head and when a tail, and that a tail starts the day after the newest stored day |
| DepthFacts.CooldownExactly | code/backend/depth.py:237-245 | the tail is looked at exactly when it is due and fifteen minutes have passed since the last look |
| DepthFacts.BrokerIsAskedFrom | code/backend/depth.py:246-256 | the broker is asked only for equities with credentials, from the tail's first day or from 2016 |
| DepthFacts.BrokerComesFirst | code/backend/depth.py:246-268 | when a tail is due and the broker answers, its days are what is stored, under its name |
| DepthFacts.EveryRowNamesItsFeed | code/backend/depth.py:189-279 | at every durable state each row names the feed it came from and each mark the moment of the visit |
| DepthFacts.FillKeeps | code/backend/depth.py:189-279 | every durable state of a visit, so every crash point, keeps the history gap-free |
| DepthFacts.FillStaysTruthful | code/backend/depth.py:212-226 | every durable state of a visit keeps the deep mark truthful, whatever the broker does |
| DepthFacts.NeverAGap | code/backend/depth.py:76-279 | over all visits and crash points the history is gap-free if and only if the keyless feed lacks at most one session the broker has before it |
| DepthFacts.DeepMeansDeep | code/backend/depth.py:212-226 | over all visits and crash points, a symbol marked deep has rows back to the keyless feed's first day, also when the history has holes |
| DepthFacts.CatchesUp | code/backend/depth.py:189-279 | a finished visit outside the cooldown holds every session up to yesterday, whichever feed gave the tail, also when the keyless feed fails and the broker answers |
| DeepQueue.AlwaysSound | code/backend/depth.py:157-187 | for any submitters and workers, the seen symbols are exactly those of the tickets about to be queued, queued or in flight, each once |
| DeepQueue.AcceptedWhenNotPending | code/backend/depth.py:157-169 | a submit is turned away exactly when it names nothing or its symbol still waits for its fill |
| DeepQueue.WorkShrinks | code/backend/depth.py:175-187 | every step but a submit brings the desk nearer to empty |
| DeepQueue.WorkIsPossible | code/backend/depth.py:175-187 | while anything is pending, a step other than a submit is possible |
| DeepQueue.IdleMeansAllFilled | code/backend/depth.py:157-187 | an idle desk has filled each accepted submit exactly once |
| DeepQueue.CanonicalExactly | code/backend/depth.py:160-162 | a symbol is known by its characters between the spaces, small letters as capitals |
| DeepQueue.SameSymbol | code/backend/depth.py:160-162 | space around a symbol does not make it another one |
| DeepQueue.TakenInOrder | code/backend/depth.py:167-180 | over every run, tickets are taken in the order they were queued |
| DeepQueue.JobsStay | code/backend/depth.py:160-167 | a ticket keeps the user and symbol it was accepted for |
| DeepQueue.Deepener.Check | code/backend/depth.py:160-166 | the part of submit under the lock |
| DeepQueue.Deepener.Put | code/backend/depth.py:167-167 | the put after the lock was released |
| DeepQueue.Deepener.Get | code/backend/depth.py:176-180 | a worker's get |
| DeepQueue.Deepener.Done | code/backend/depth.py:185-187 | the discard after the fill, however it ended |
| Backtests.AlwaysSound | code/backend/backtests.py:287-582 | over every interleaving each unwritten run owns its active row, and the manager's fields agree with the latest launch |
| Backtests.StepAndRow | code/backend/backtests.py:522-582 | a step takes a row from running to one end or leaves it; a running row is never removed |
| Backtests.EndedForGood | code/backend/backtests.py:463-532 | an ended row is never seen with another end |
| Backtests.EndsAreEarned | code/backend/backtests.py:463-520 | done means exit code 0, cancelled means a successful cancel of that very start |
| Backtests.EndOutcome | code/backend/backtests.py:463-520 | over every interleaving a row reads done if and only if its reader wrote, its process exited with 0, the report it found was good, and no cancel was seen in time; any other written end that is not cancelled is an error |
| Backtests.CancelOutcome | code/backend/backtests.py:360-510 | over every interleaving a row reads cancelled if and only if its start's cancel succeeded, no later run was launched before its reader looked, and that reader wrote without failing |
| Backtests.CancelCanBeLost | code/backend/backtests.py:360-469 | a run whose successful cancel ends as an error because a later run was launched |
| Backtests.CancelCanFail | code/backend/backtests.py:443-472 | a run whose cancel was seen and still ends as an error because its reader failed |
| Backtests.CleansItsOwn | code/backend/backtests.py:449-461 | under fresh ids a reader clears its own run's state and never a later one's |
| Backtests.AtMostOneRunner | code/backend/backtests.py:296-364 | while no id is reused under a waiting reader there is at most one runner that was not killed |
| Backtests.AtMostOneAlive | code/backend/backtests.py:296-461 | while besides no reader fails beside its live process, at most one process is alive by `poll()`, killed ones counted |
| Backtests.FailingReaderMakesTwoAlive | code/backend/backtests.py:443-461 | whenever the current live run's reader fails, the next launch is admitted beside the killed process |
| Backtests.StaleReaderMakesTwo | code/backend/backtests.py:296-461 | every launch under the id of a waiting reader leads to two live runners in two more steps |
| Backtests.StaleReaderIsPossible | code/backend/backtests.py:287-582 | such a launch can be reached from an empty table |
| Manager.BacktestManager.Start | code/backend/backtests.py:287-364 | refused exactly while a runner is alive, else the new row, process, reader and fields, also when the launch fails |
| Manager.BacktestManager.Cancel | code/backend/backtests.py:366-372 | succeeds exactly for the current live run, and kills it |
| Manager.BacktestManager.IngestCheck | code/backend/backtests.py:463-469 | true exactly for a cancelled run that is still the latest |
| Manager.BacktestManager.IngestWrite | code/backend/backtests.py:470-510 | the write of one reader, as the step whose outcome EndOutcome states for each exit code and report |
| Manager.BacktestManager.CleanUp | code/backend/backtests.py:455-461 | clears the manager only for its own run id |
| Manager.BacktestManager.Finish | code/backend/backtests.py:522-532 | one row's status changes, if it is there |
| Manager.BacktestManager.NextRowId | code/backend/marketdb.py:199-200 | one above the greatest id in the table |
| Manager.BacktestManager.CheckDelete | code/backend/backtests.py:562-567 | refused for the current run |
| Manager.BacktestManager.DeleteRow | code/backend/backtests.py:568-578 | removes the user's row exactly when it is not running, and no other |
| ReportKeys.OpensOnceAndInTime | code/backend/backtests.py:535-560 | each key is accepted at most once, for the run id and file it was minted for, and before its expiry |
| ReportKeys.RetiredForGood | code/backend/backtests.py:535-567 | a key that was used, expired, dropped or replaced never opens anything again |
| ReportKeys.KeyWorksForAMinute | code/backend/backtests.py:535-560 | a minted key is accepted exactly during its 60 seconds, whatever wrong tokens are tried, until it is used, replaced or dropped |
| ReportKeys.MintingRetires | code/backend/backtests.py:535-542 | minting again retires the run's earlier key |
| ReportKeys.KeyRing.MintReportKey | code/backend/backtests.py:535-542 | the table after minting |
| ReportKeys.KeyRing.ConsumeReportKey | code/backend/backtests.py:544-560 | the file exactly for the right key in time; an expired key is dropped |
| ReportKeys.KeyRing.DropReportKey | code/backend/backtests.py:562-567 | deleting a run drops its key |
| RunKeys.MintIsSafe | code/backend/backtests.py:535-578 | in every continuation the key opens only the start it was asked for, if and only if at the mint that run is there and its own user has no deletion of it past the first check |
| RunKeys.KeyOpensItsRun | code/backend/backtests.py:535-580 | while every mint is safe, no key ever opens another run or one that is gone, over every interleaving |
| RunKeys.LateMintOpensAnother | code/backend/app.py:2212-2246 | a key minted for a run that is gone or going opens the next run under that id once that run is done |
| RunKeys.LateMintIsPossible | code/backend/backtests.py:562-578 | such a mint is reached by one finished run that is read and half deleted |
| ChartItems.DrawingReadsBack | code/backend/chartobjects.py:186-209 | a well-formed drawing is read back from its stored form unchanged |
| ChartItems.ReadDrawingIsGood | code/backend/chartobjects.py:186-209 | an accepted drawing has an id, its kind's number of points, and real bar times |
| ChartItems.MeasureReadsBack | code/backend/chartobjects.py:211-227 | a well-formed measure is read back unchanged, with or without a place |
| ChartItems.ReadMeasureIsGood | code/backend/chartobjects.py:128-162 | an accepted measure has well-formed anchors and place |
| ChartItems.ConstraintReadsBack | code/backend/chartobjects.py:262-297 | a well-formed constraint is read back unchanged |
| ChartItems.ReadConstraintIsGood | code/backend/chartobjects.py:240-297 | an accepted constraint names known drawings, holds nothing against itself, and slopes drive whole lines |
| ChartItems.LegReadsBack | code/backend/chartobjects.py:299-402 | a well-formed leg is read back unchanged, with all its optional texts |
| ChartItems.ReadLegIsGood | code/backend/chartobjects.py:299-402 | an accepted leg keeps every bound |
| ChartObjects.ReadListExact | code/backend/chartobjects.py:109-118 | a list is accepted with given objects if and only if each item reads as its object and every id is new |
| ChartObjects.ReadItems | code/backend/chartobjects.py:164-209 | the loop over one collection, with the ids seen so far |
| ChartObjects.ValidateDoc | code/backend/chartobjects.py:175-429 | the five loops and the size check compute `Validate`, whose meaning is in ValidateExactly |
| ChartMeaning.ValidateExactly | code/backend/chartobjects.py:175-429 | a document is accepted as `d` if and only if the JSON says `d`, object by object and value by value, and `d` is well formed: integers and reals are read as their number, whole-second reals as the integer, `false`, null and a missing flag as off, texts and kinds as themselves |
| ChartMeaning.GoodExactly | code/backend/chartobjects.py:51-72 | the limits of a well-formed document, in numbers |
| ChartMeaning.GoodLegExactly | code/backend/chartobjects.py:299-402 | the bounds of a leg, in numbers |
| ChartMeaning.TagNames | code/backend/chartobjects.py:340-395 | the nine texts of a leg that survive a save |
| ChartFacts.AcceptedIsGood | code/backend/chartobjects.py:175-429 | whatever is accepted is well formed throughout |
| ChartFacts.GoodReadsBack | code/backend/chartobjects.py:175-429 | every well-formed document is read back from its stored form unchanged |
| ChartFacts.NormalForm | code/backend/chartobjects.py:175-429 | validating an accepted document again changes nothing, and accepted documents are exactly the well-formed ones |
| ChartFacts.OnlyDocKeysMatter | code/backend/chartobjects.py:164-172 | a missing key and a null are the same, and keys the reader does not know change nothing |
| ChartFacts.IdsAreUnique | code/backend/chartobjects.py:109-118 | no id occurs twice across the five collections |
| ChartFacts.NoDanglingReference | code/backend/chartobjects.py:231-297 | every constraint reference names a drawing of the same document |
| ChartFacts.ChartTable.GetDoc | code/backend/chartobjects.py:457-472 | the stored document, or the empty one for a missing, outdated or unreadable row; a bad key is refused, and a row that is no object raises |
| ChartFacts.ChartTable.PutDoc | code/backend/chartobjects.py:475-491 | a refused document changes nothing, an empty one removes the row, any other replaces it |
| ChartFacts.PutThenGet | code/backend/chartobjects.py:443-491 | what was put is what is got if and only if it was not a view alone, and no other chart changes |
| ChartFacts.GetThenPut | code/backend/chartobjects.py:443-491 | what is got is the document stored under the current version, else the blank one; putting it back shows the same again, and removes the row there was exactly when it was outdated, unreadable or empty |
| ChartFacts.OwnRowsStay | code/backend/chartobjects.py:457-491 | putting back a row the table wrote itself changes nothing |
| Drawdown.WindowCharacter | code/backend/app.py:1293-1307 | the one pass finds the least change over all pairs of days, and the window's return |
| Drawdown.WorstIsOne | code/backend/app.py:1298-1302 | that least change is one number |

## Left out

- HTTP routes, sessions, encryption, provider clients, pacing, logging and the wording of refusals and messages.
- The text of SQL statements, JSON text, time zones: a snapshot carries its New York date and minute, and dates are taken not to run backwards while time runs forwards.
- Floating point: prices, strikes and sizes are reals; an integer too large for a float is not refused.
- Bar values: the kept history is about which days are stored and from which feed, and a day stored in mid-session is not fetched again.
- The bars half of `sync_from_recorded`, `import_bars`, `deepen`, `datajobs.py`, `favorites.py`, `autorecord.py` and `bt_runner.py`: simpler variants or wrappers.
- The detail text that `mark` stores beside the state; one chunk is marked under one clock second.
- `symbol.upper()` beyond the letters a to z, and `strip` beyond the ASCII blanks.
- The import checks that look at one row or at a mean (`_num`, `_date`, `_right`, `_check_iv`), and the text formats around them; header and cells arrive stripped.
- One store stands for one underlying, as one file does; `import_chain` gets the underlying already in capitals.
- The refusal to start runs in a packaged build, which is one test at the top of `start`.
- A stored row whose text is not JSON: it reads as the empty document, like an unreadable one.
- The HTTP route that mints a key is the reading of a row and the minting as two steps; what it checks about files is not modelled.
- A reader that fails after it has written its row, the sweep at restart, progress events, and the removal of run directories.
- `Deepener.start` and `stop`: any number of workers is allowed at any time, so how they are started does not matter; fills are steps whose effect on the store is modelled apart, in `Depth`.
- Which document the size limit refuses: the length of the stored text is a parameter.
- Whether a text is a calendar date for `fromisoformat`: a parameter of the chart reader.
- Drawdown.WindowCharacter: takes the closes of the window already in date order and positive, because sorting and picking the window are plain library calls.
- The 10000-bar limit of one broker answer: it keeps the newest bars, and daily bars since 2016 stay below it.
