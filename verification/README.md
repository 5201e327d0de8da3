# A verified model of the trading platform's own algorithms

This project models, in Dafny, the parts of the repository whose correctness is decided by the code itself:
the CI shard scheduler, the four intraday strategies, proportional resizing and order conversion, the
streaming benchmark, the job scheduler, the soak journal, and three small concurrent services. Each module
follows one source file or one algorithm of it:

| module | what it models |
|---|---|
| `ShardBalance`, `TightShards`, `ShardSelection`, `ShardRuns` | greedy sharding, its approximation bounds, and the argument that every test runs once |
| `Num`, `Columns`, `Bars` | float columns with missing values, the column operations, session bars and the VWAP |
| `OpeningRange` | the single-pass range loop, the signals, the live path against the backtest path |
| `LateDay`, `DriveFade`, `GapDays`, `EdgeTrigger` | whole-day aggregates without lookahead, and edge-triggered entries |
| `MissingClose`, `MissingLow` | two series on which an entry rule buys without its setup |
| `ResizeDeltas`, `ProtectiveOrders`, `ResizePlan` | rounding of a proportional resize, the orders it has to adjust, and its execution against a broker |
| `ToMarket` | turning a working limit order into a market order while it may still fill |
| `StreamEval`, `BudgetPlan` | the parent and child of the streaming evaluator, and the search for a period that fits the budget |
| `JobScheduler` | jobs that wait for the jobs they depend on |
| `JournalFeed` | the append-only journal, its long-poll readers and its producer |
| `Watchdog`, `Downloads`, `ContainerModel` | watched ticks, bounded concurrent downloads, the resolver and its instance cache |
| `Common`, `Ordering` | small shared definitions; sorting |

Form. Code that loops over lists or updates an object is a method or a class proved against a specification
function (`Assign`, `PytestArgs`, `Precompute`, `ComputeResizeDeltas`, `ExecuteResizePlan`, `Child`,
`FakeJournalFeed`, `DomainProducer`, `BusyStreak`, `FitPeriod`, `Tally`). Column expressions are functions.
Where coroutines, threads, a broker or a child process interleave, the behaviour is a step relation over the
await points and locked blocks, and the claims are about every state of every run.

Numbers are exact; a float column may hold NaN and the two infinities, a quotient by zero is infinite or NaN,
and comparisons with NaN are false. Bars carry their session date and minute of the day.

## Where the code and what it promises part

Each of these is a lemma with the exact condition, and another one with an input that meets it.

- `--deselect` matches by prefix, so a recorded test whose id is a proper prefix of another test's id can take
  that test out of the run (`ShardRuns.OnceUnlessSwallowed`; `ShardRuns.PrefixSwallowsANewTest`, with
  `ShardRuns.TestAAndTestAB`). A shard without items gets no arguments and runs the whole suite; this happens
  exactly when there are too few items with a positive time (`ShardRuns.ShardsRunEveryTestOnce`,
  `ShardRuns.AnEmptyShardRepeats`).
- The gap column of `gap_reversion.py` takes the day's first known open. When a session's first regular-hours
  bars have no open, it reads a later bar (`GapDays.GapLooksAhead`, `GapDays.GapOfALateOpen`).
- The opening-range module text promises an exit without a volume gate. The code leaves through the check for a
  positive volume average before it looks at the exit, so a missing or zero average also blocks the SELL
  (`OpeningRange.SignalsExactly`, `OpeningRange.TheExitThatIsBlocked`).
- In `late_day_momentum.py` a missing previous close, and in `opening_drive_fade.py` a missing low, pass the
  last rejection, since a comparison with NaN is false (`LateDay.BuysWhereSetupForms`, `LateDay.SlipsThroughExactly`,
  `MissingClose.BuysWithoutASetup`; `DriveFade.BuysWhereSetupForms`, `MissingLow.BuysWithoutASetup`).
- `compute_resize_deltas` does not refuse a negative upper bound, and turns positions round
  (`ResizeDeltas.NegativeBoundFlips`, `ResizeDeltas.ANegativeBound`); a protective order re-created after that no
  longer closes the position (`ProtectiveOrders.ProtectiveCloses`).
- Two portfolio rows of one instrument on one side claim the same protective orders
  (`ProtectiveOrders.SlotsAreDistinct`, `ProtectiveOrders.ASharedStop`), and when both re-creations land, two
  orders are live where there was one (`ResizePlan.TwoLiveExactly`, `ProtectiveOrders.SharedOrderDoubles`).
- A success reply to a cancel says that it was sent: `cancel_order_id` returns what `ib.cancelOrder` returns at
  once (trader/trading/executioner.py:182-188), and any such answer is a success
  (trader/messaging/trader_service_api.py:74-80). The order may go on working.
  - `to_market` promises that limit and market order cannot both be live. They can, and both can execute in full
    (`ToMarket.SentCancelDoubles`). The quantity is safe exactly when the limit order is off the book at the
    re-read (`ToMarket.ConservedForSureExactly`), which a terminal state in the re-read would show and the code
    does not check (`ToMarket.ConservedAfterTerminal`).
  - `execute_resize_plan` promises never to place a second protective beside a live one. It does when the
    re-creation lands before the cancel has taken effect (`ResizePlan.NeverTwoLiveOnce`), and a cancel that never
    does leaves both orders and no warning (`ResizePlan.SilentlyDoubled`, `ResizePlan.ADoubledSlot`).
- Both take a reply without any status for a success. In `execute_resize_plan` a slot can so end up without an order
  and without a warning (`ResizePlan.SilentlyBare`, `ResizePlan.ABareSlot`).
- `to_market` takes an unpopulated status after a partial fill for an untouched order
  (`ToMarket.ConservedAfterReread`, `ToMarket.UnpopulatedBuysAgain`), and when its placement is refused after the
  cancel has taken effect, the rest of the quantity is left without any order (`ToMarket.StrandedExactly`,
  `ToMarket.RefusedPlacementStrands`).
- A job whose start fails between its first statement and the spawn is never started again, although the
  decorator calls `start_job` three times, and nothing else leaves a job like that
  (`JobScheduler.StuckExactly`, `JobScheduler.StuckForever`, `JobScheduler.AStartThatSticks`).
- `resolve` also reports a circular dependency when another thread is building the type
  (`ContainerModel.RefusedWhenInFlight`, `ContainerModel.RefusedWithoutACycle`).

## Model

| member | source | states |
|---|---|---|
| ShardBalance.LongestFirstBound | scripts/ci_test_shard.py:62-69 | Non-negative weights, heaviest first, each to the first least loaded of m shards: the heaviest shard is within 4/3 - 1/(3m) of the heaviest shard of every split of the same items |
| ShardBalance.SmallOrFits | scripts/ci_test_shard.py:65-68 | The step of that bound: the item just placed either keeps its shard within any split's maximum, or weighs at most a third of it |
| TightShards.BoundIsAttained | scripts/ci_test_shard.py:62-69 | For every number m of shards the loop ends with 4m - 1 on some items where 3m is possible, which meets the bound exactly, so it cannot be improved |
| TightShards.LoopPlacesThem | scripts/ci_test_shard.py:65-68 | Where the loop puts those items: one on each shard, then the others in opposite order, then the last on the first shard |
| ShardBalance.AnyOrderBound | scripts/ci_test_shard.py:62-69 | In any processing order the heaviest shard is within 2 - 1/m of every split |
| ShardBalance.SpreadBound | scripts/ci_test_shard.py:66-68 | At every moment two shards differ by at most the largest item placed so far |
| ShardBalance.BoundsAsProducts | scripts/ci_test_shard.py:62-69 | Reads the two bounds, stated by repeated addition, as the usual inequalities between products |
| ShardBalance.EmptyShards | scripts/ci_test_shard.py:62-69 | Heaviest first leaves no shard empty if and only if at least m items are positive, or m - 1 and one more item weighs nothing |
| ShardSelection.SplitTests | scripts/ci_test_shard.py:46-48 | Every file's entry holds its recorded tests in recorded order, and no entry is empty |
| ShardSelection.WorkItems | scripts/ci_test_shard.py:43-59 | The loop returns the items of the suite, file by file: recorded tests and a zero-weight REST item, or the file with its recorded or estimated seconds |
| ShardSelection.Assign | scripts/ci_test_shard.py:62-69 | The shards are those of a placement in descending (seconds, name) order in which every item went to the first least loaded shard |
| ShardSelection.SortedWeights | scripts/ci_test_shard.py:65 | The processing order is by descending seconds and keeps every item |
| ShardSelection.AssignIsNearOptimal | scripts/ci_test_shard.py:62-69 | What `assign` returns is within 4/3 - 1/(3m) of every split of the same items |
| ShardRuns.PytestArgs | scripts/ci_test_shard.py:72-88 | A shard's arguments are exactly: the file of each REST item, each other item whose file's REST item is not here, and a deselection of each recorded test of a REST file that is not itself an item here |
| ShardRuns.WorkItemsAreItems | scripts/ci_test_shard.py:43-59 | The work items are the recorded tests and REST items of the split files and the other files of the suite, all of them, nothing else, each once |
| ShardRuns.PlacementPartitions | scripts/ci_test_shard.py:62-69 | However the greedy loop places them, every item lies on exactly one shard |
| ShardRuns.CollectingPath | scripts/ci_test_shard.py:75-88 | A path argument that collects a test is its file, for a REST item or an unsplit file, or the recorded test itself |
| ShardRuns.DroppingNode | scripts/ci_test_shard.py:79-85 | Which deselections of a shard drop a test: recorded ids of its file that are prefixes of its id, on the shard with the file's REST item, that are items elsewhere |
| ShardRuns.OnceUnlessSwallowed | scripts/ci_test_shard.py:43-88 | For every arrangement of the items over non-empty shards: a test of a listed file, recorded or new, runs on exactly one shard if and only if no deselection at its file's REST item swallows it, and otherwise on none |
| ShardRuns.EveryTestExactlyOnce | scripts/ci_test_shard.py:11-14 | When no recorded id is a proper prefix of another test's id, every test of a listed file runs on exactly one shard |
| ShardRuns.ShardArgs | scripts/ci_test_shard.py:121-129 | The arguments of all shards come from one greedy placement of the suite's items |
| ShardRuns.ShardsRunEveryTestOnce | scripts/ci_test_shard.py:43-129 | For what the script prints over all shard indices: a test runs exactly once if and only if there are enough items to reach every shard |
| ShardRuns.NoEmptyShard | scripts/ci_test_shard.py:62-69 | Every shard gets an item if and only if there are enough items with a positive time |
| ShardRuns.PrefixSwallowsANewTest | scripts/ci_test_shard.py:79-85 | For every file with one recorded test and one new test, split over two shards: the recorded test runs exactly once, and so does the new one if and only if its id does not start with the recorded id; otherwise it runs nowhere |
| ShardRuns.OneMoreCharacter | scripts/ci_test_shard.py:79-85 | Such pairs exist in every file: any test of it, and a new test whose id is that id with one more character |
| ShardRuns.TestAAndTestAB | scripts/ci_test_shard.py:79-85 | test_a and test_ab of tests/test_x.py are such a pair |
| ShardRuns.AnEmptyShardRepeats | scripts/ci_test_shard.py:86-88 | Over three shards, the two items of a file with one recorded test leave a shard without arguments, and neither of the file's tests runs exactly once |
| Columns.EarlierGroupsComplete | strategies/late_day_momentum.py:74-82 | On a time-sorted series a whole-day fold is final on every day of a prefix but its last |
| Columns.MapBackPrefix | strategies/late_day_momentum.py:82 | Mapping a daily column back to bars gives the same on a prefix and on the series when the daily columns agree on the prefix's days |
| Columns.ShiftedMean | strategies/late_day_momentum.py:81 | A rolling mean over a column shifted by one is the mean of the values before the row |
| Columns.RunLargest | strategies/late_day_momentum.py:70-76 | The per-day maximum is the largest known value of the day, one of them, and missing when there is none |
| Columns.RunSmallest | strategies/late_day_momentum.py:71-76 | The same for the per-day minimum |
| Bars.VwapPrefix | strategies/late_day_momentum.py:59-65 | The session VWAP at a bar depends on no later bar |
| Bars.VwapIsAverage | strategies/late_day_momentum.py:59-65 | When the day's regular-hours bars so far have closes in [lo, hi] and volumes, the VWAP lies in [lo, hi] too, and it is missing exactly while nothing has been traded |
| LateDay.RangeSoFarIs | strategies/late_day_momentum.py:67-72 | The range so far runs from the lowest to the highest regular-hours price of the day up to the bar |
| LateDay.DailyRangeIs | strategies/late_day_momentum.py:74-79 | A day's value is its full regular-hours range in the whole series |
| LateDay.Prior5Is | strategies/late_day_momentum.py:80-82 | The prior mean of a bar in session g is over sessions g - 5 to g - 1, at least three of them known, never over its own |
| LateDay.Prior5Prefix | strategies/late_day_momentum.py:74-82 | Although it is built from whole-day ranges, the prior mean is the same on every prefix |
| LateDay.NoLookahead | strategies/late_day_momentum.py:41-100 | On every prefix of at least MIN_BARS bars, every column equals the whole series' column cut to the prefix |
| LateDay.SignalsUseNoFuture | strategies/late_day_momentum.py:102-157 | The answer at bar i is the same on every prefix that holds it |
| LateDay.QualifiersAgree | strategies/late_day_momentum.py:116-149 | On any columns: the conditions of `prev_formed` hold at exactly the entry-window bars that no rejection of `on_bar` applies to and whose compared values are all known |
| LateDay.BuysWhereSetupForms | strategies/late_day_momentum.py:102-157 | On every series: a BUY at bar i if and only if the setup holds at i and not at i - 1, except exactly at the bars that pass a rejection because a compared value is missing |
| LateDay.SlipsThroughExactly | strategies/late_day_momentum.py:116-129 | On every series those are exactly the bars that no rejection applies to, that the setup does not precede, and whose previous close is missing or whose premium cannot be computed |
| LateDay.MissingCloseSlipsThrough | strategies/late_day_momentum.py:127-129 | Where the known prices are positive and volumes finite, only the missing previous close is left of these |
| LateDay.FiresOnEdgesExactly | strategies/late_day_momentum.py:131-149 | The rule is an edge trigger on the setup if and only if no bar slips through |
| LateDay.CleanSeriesNeverSlips | strategies/late_day_momentum.py:102-157 | A series with known positive closes has no such bar |
| MissingClose.BuysWithoutASetup | strategies/late_day_momentum.py:116-129 | On a 121-bar series whose last bar follows a missing close, the rule buys and the setup has not formed |
| MissingClose.SeriesIsFine | strategies/late_day_momentum.py:116-129 | That series exists, sorted by time and with positive prices wherever they are known |
| LateDay.OneBuyPerSetup | strategies/late_day_momentum.py:131-149 | When no bar slips through: one BUY per maximal run of the setup that starts at or after MIN_BARS, none in an earlier run, every BUY opens such a run, and there are as many BUYs in all as such runs |
| EdgeTrigger.OneBuyPerRun | strategies/late_day_momentum.py:131-149 | An edge trigger fires once in a maximal run that starts at or after the minimum, at its first bar, and not in an earlier run |
| EdgeTrigger.EveryBuyOpensARun | strategies/late_day_momentum.py:131-149 | Every firing is the first bar of a maximal run |
| EdgeTrigger.BuysCountRuns | strategies/late_day_momentum.py:131-149 | Over a whole series the firings are as many as the maximal runs that start at or after the minimum |
| DriveFade.DriveLowIs | strategies/opening_drive_fade.py:85-91 | The drive low of a bar is the lowest known low of its day's drive-window bars up to it |
| DriveFade.DayOpenIs | strategies/opening_drive_fade.py:80-84 | The day open is the open of the day's first regular-hours bar from that bar on, and missing before |
| DriveFade.AtrIs | strategies/opening_drive_fade.py:93-106 | The ATR of a bar in session g is the mean true range of sessions g - 14 to g - 1, at least five of them known |
| DriveFade.OversoldMeans | strategies/opening_drive_fade.py:111-116 | The RSI is at most 30 if and only if the ratio of mean gain to mean loss is at most 3/7 |
| DriveFade.NoLossNoRsi | strategies/opening_drive_fade.py:115-116 | Without a loss the RSI is missing |
| DriveFade.AtrPrefix | strategies/opening_drive_fade.py:93-106 | The daily ATR is the same on every prefix |
| DriveFade.DriveColumnsPrefix | strategies/opening_drive_fade.py:80-91 | Day open and drive low at a bar depend on no later bar |
| DriveFade.NoLookahead | strategies/opening_drive_fade.py:48-137 | On every prefix of at least MIN_BARS bars, every column equals the whole series' column cut to the prefix |
| DriveFade.SignalsUseNoFuture | strategies/opening_drive_fade.py:139-203 | The answer at bar i is the same on every prefix that holds it |
| DriveFade.QualifiersAgree | strategies/opening_drive_fade.py:155-195 | On any columns: the conditions of `prev_formed` hold at exactly the entry-window bars that no rejection of `on_bar` applies to and whose compared values are all known |
| DriveFade.BuysWhereSetupForms | strategies/opening_drive_fade.py:139-203 | On every series: a BUY at bar i if and only if the setup holds at i and not at i - 1, except exactly at the bars that pass a rejection because a compared value is missing |
| DriveFade.MissingLowSlipsThrough | strategies/opening_drive_fade.py:171-173 | Those are exactly the bars that no rejection applies to, that the setup does not precede, and whose low cannot be compared with the drive low |
| DriveFade.FiresOnEdgesExactly | strategies/opening_drive_fade.py:175-195 | The rule is an edge trigger on the setup if and only if no bar slips through |
| DriveFade.CleanSeriesNeverSlips | strategies/opening_drive_fade.py:139-203 | A series in which every bar has a low has no such bar |
| MissingLow.BuysWithoutASetup | strategies/opening_drive_fade.py:155-173 | On a 61-bar series whose last bar has no low, the rule buys and the setup has not formed |
| MissingLow.SeriesIsFine | strategies/opening_drive_fade.py:155-173 | That series exists and is sorted by time |
| DriveFade.OneBuyPerSetup | strategies/opening_drive_fade.py:175-195 | When no bar slips through: one BUY per maximal run of the setup that starts at or after MIN_BARS, none in an earlier run, every BUY opens such a run, and there are as many BUYs in all as such runs |
| GapDays.GapAt | strategies/gap_reversion.py:65-75 | A session bar's gap is the day's first known open against the last close of the session before |
| GapDays.PrevCloseIs | strategies/gap_reversion.py:70-71 | The close a session's gap is taken from is the last known one of the session before, and missing when there is none |
| GapDays.GapLooksAhead | strategies/gap_reversion.py:65-75 | The gap at a session bar of a prefix differs from the whole series' gap if and only if the session has its first known open after the prefix, the session before has a known close, and their gap is defined |
| GapDays.NoLookaheadExactly | strategies/gap_reversion.py:35-95 | Every column of a prefix equals the whole series' column cut to the prefix if and only if no bar of the prefix is of that kind |
| GapDays.GapOfALateOpen | strategies/gap_reversion.py:65-75 | A 42-bar series on which the same bar has no gap on the 41-bar prefix and a gap of 1 percent one bar later |
| GapDays.OrdinalsPrefix | strategies/gap_reversion.py:82-83 | Day ordinals depend on no later bar |
| GapDays.NoLookahead | strategies/gap_reversion.py:35-95 | When each session opens with a known price, every column of a prefix equals the whole series' column cut to the prefix |
| OpeningRange.Precompute | strategies/opening_range_breakout.py:57-130 | The loop over the bars publishes exactly the columns of the scan specification |
| OpeningRange.OnPrices | strategies/opening_range_breakout.py:132-148 | The live path answers what `on_bar` answers at the window's last bar |
| OpeningRange.ScanDescribes | strategies/opening_range_breakout.py:97-119 | After every bar the running values are the extremes of the day's window bars so far, and frozen values are the final ones |
| OpeningRange.RangeIsExact | strategies/opening_range_breakout.py:87-119 | The published range is absent before the window ends; afterwards it is the maximum high and minimum low of exactly that day's window bars, absent only when none has a usable high |
| OpeningRange.SignalsExactly | strategies/opening_range_breakout.py:150-190 | BUY and SELL read off the bars alone, for any prices and both directions: crossing above every known window high on volume; otherwise crossing below every known window low with a positive volume average; a BUY is to be closed 15 minutes before the session ends |
| OpeningRange.NeverBoth | strategies/opening_range_breakout.py:170-189 | A close crosses above and below the range at once only if every window bar's low is above its high or missing |
| OpeningRange.TheExitThatIsBlocked | strategies/opening_range_breakout.py:165-189 | On a 41-bar session without volume the close falls below the whole range in mid-session and there is no SELL |
| OpeningRange.LiveEqualsBacktest | strategies/opening_range_breakout.py:132-190 | `on_prices` on the bars up to i, or on a shorter window with MIN_BARS + 1 bars and the whole current session, equals `on_bar` at i over the full series |
| OpeningRange.RangePrefix | strategies/opening_range_breakout.py:87-119 | The published range at a bar depends on no later bar |
| ResizeDeltas.ComputeResizeDeltas | trader/sdk.py:75-145 | The loops return the scale factor of the total and bounds, and one adjustment per position whose truncated target differs from it, in order |
| ResizeDeltas.AfterIsTarget | trader/sdk.py:118-129 | Executing an adjustment in full takes a long or short position to its target, the side is BUY exactly for a positive delta, and the announced value is that of the resulting position |
| ResizeDeltas.ScalingDown | trader/sdk.py:99-143 | With an upper bound that is not negative no position flips or grows, and the new total is at most the bound and within one share's price per position of it |
| ResizeDeltas.ScalingUp | trader/sdk.py:99-143 | No position flips or loses a whole share, whole-share positions never shrink, and the new total is at most the lower bound and within one share's price per position of it |
| ResizeDeltas.AFractionShrinks | trader/sdk.py:118 | Scaled up from 15 to 18, a position of 1.5 shares ends at 1 |
| ResizeDeltas.TotalAfterBounds | trader/sdk.py:107-143 | For every scale factor that is not negative, the new total lies between the scaled total and that less one share's price per position |
| ResizeDeltas.NegativeBoundFlips | trader/sdk.py:99-102 | Under a negative upper bound a position is turned round if and only if its size times minus the bound reaches the total |
| ResizeDeltas.ANegativeBound | trader/sdk.py:99-102 | Two shares worth 100 under a bound of -50 end one share short |
| ProtectiveOrders.Associate | trader/sdk.py:2343-2376 | Each adjustment gets the protective orders of its position, in the order of the open orders |
| ProtectiveOrders.AssociatedExactly | trader/sdk.py:2344-2376 | Each open order that protects the position is noted once, and nothing else |
| ProtectiveOrders.SlotsAreDistinct | trader/sdk.py:2343-2376 | No two noted orders share an id if and only if no order is claimed by two rows of one instrument and side |
| ProtectiveOrders.SharedOrderDoubles | trader/sdk.py:2343-2376 | Whenever two rows claim the one open order, the plan names it twice, and a broker that accepts everything ends with two live orders in its place |
| ProtectiveOrders.ASharedStop | trader/sdk.py:2354-2362 | A stop to sell of an instrument held long is such an order |
| ProtectiveOrders.ReadyToExecute | trader/sdk.py:2295-2383 | With one row per instrument and distinct order ids, the plan names every protective order once, and each is live |
| ProtectiveOrders.ProtectiveCloses | trader/sdk.py:2481-2513 | A re-created protective that executes in full takes the resized position to exactly zero, if and only if the resize did not turn it round |
| ResizePlan.ExecuteResizePlan | trader/sdk.py:2385-2528 | For every plan and broker: every book of the run, one for each call that can change it, and what every slot, the successes, failures and warnings come to in the end |
| ResizePlan.LiveCount | trader/sdk.py:2479-2526 | For every plan: a slot keeps its original until a cancel takes effect, and holds one more order for each re-creation that landed |
| ResizePlan.TwoLiveExactly | trader/sdk.py:2479-2526 | A slot ends with two live orders or more if and only if two re-creations landed, or one did and no cancel took effect |
| ResizePlan.NeverTwoLive | trader/sdk.py:2460-2526 | For every plan: no slot has two live orders at any moment of the run if and only if no re-creation lands while an order of its slot still works |
| ResizePlan.NeverTwoLiveOnce | trader/sdk.py:2460-2526 | When the plan names every slot once, that is: if and only if every re-creation that lands does so after its cancel has taken effect |
| ResizePlan.SilentlyDoubled | trader/sdk.py:2481-2526 | A slot ends with two live orders and without a warning if and only if its cancel was sent and never took effect, and the re-creation landed without raising |
| ResizePlan.ADoubledSlot | trader/sdk.py:2481-2515 | For every stop there is a run that leaves it live beside its successor and warns of nothing |
| ResizePlan.ResetProtective | trader/sdk.py:2482-2526 | One protective: the books of its two calls, with a re-creation at the new quantity only after a cancel that was answered with success, a warning exactly for a cancel or re-creation that was refused or raised, and a success exactly for a re-creation answered with success or without a status |
| ResizePlan.FailedDeltaKeepsProtection | trader/sdk.py:2410-2458 | For every plan: a slot keeps exactly its orders when no delta of a symbol that names it succeeded |
| ResizePlan.SilentlyBare | trader/sdk.py:2498-2526 | A slot ends without an order and without a warning if and only if its cancel was sent and took effect, and the reply to the re-creation carried no status while nothing was placed |
| ResizePlan.ABareSlot | trader/sdk.py:2512-2515 | For every stop there is a run that leaves its slot bare and warns of nothing |
| ResizePlan.UnwarnedSlotIsResized | trader/sdk.py:2481-2526 | After a successful delta, a slot without a warning holds its order at the new quantity, unless a reply carried no status, and beside it the original exactly when its cancel never took effect |
| ToMarket.TruthfulIsExact | trader/sdk.py:1086-1106 | A truthful status always yields the open quantity |
| ToMarket.UnpopulatedIsExactWhenUnfilled | trader/sdk.py:1101-1103 | An unpopulated status yields the open quantity if and only if nothing has filled |
| ToMarket.MarketOnlyAfterCancelReply | trader/sdk.py:1121-1131 | In every run a market order exists only after a cancel that was answered with success or without a status, never after one that was refused or raised |
| ToMarket.FillsEndOffTheBook | trader/sdk.py:1117-1121 | From the moment the limit order is off the book nothing more fills |
| ToMarket.ExcessIsUnseenFills | trader/sdk.py:1061-1164 | In every run that places the order, fills and market quantity exceed the original quantity by exactly the fills the last usable snapshot did not show |
| ToMarket.ConservedAfterReread | trader/sdk.py:1132-1145 | When the re-read finds the order, fills and market quantity are the original quantity if and only if its status was truthful and nothing has filled since, or nothing has filled at all |
| ToMarket.ConservedForSureExactly | trader/sdk.py:1117-1145 | After a truthful re-read with something left to place, every continuation conserves the quantity if and only if the limit order is off the book by then |
| ToMarket.ConservedAfterTerminal | trader/sdk.py:1132-1145 | When the re-read reports a terminal state, which the code does not look at, its truthfulness alone decides |
| ToMarket.SentCancelDoubles | trader/sdk.py:1117-1164 | For every quantity, and for a reply of success as for one without a status, there is a run with a truthful re-read in which limit and market order both execute the whole quantity |
| ToMarket.UnpopulatedBuysAgain | trader/sdk.py:1101-1103 | For every quantity and partial fill there is a run with the limit order off the book in which an unpopulated re-read makes the filled part bought again |
| ToMarket.WithoutReread | trader/sdk.py:1135-1145 | When the second snapshot fails or omits the order, the market quantity is what the first one left open |
| ToMarket.StrandedExactly | trader/sdk.py:1121-1164 | A finished call leaves part of the quantity without any order if and only if the limit order is off the book short of its quantity, after a cancel answered with a failure or a placement that did not land |
| ToMarket.RefusedPlacementStrands | trader/sdk.py:1154-1164 | For every quantity there is a run in which the cancel takes effect, the placement is refused, and nothing is in the market |
| StreamEval.Child.OnMessage | scripts/sp3_benchmark.py:85-108 | The shifting buffer and the stamps hold the same last rows, and the reply is the strategy's answer on them |
| StreamEval.Child.Store | scripts/sp3_benchmark.py:91-96 | A row is appended, or shifted in at the end of a full buffer |
| StreamEval.LastFramesStep | scripts/sp3_benchmark.py:91-98 | The last `lookback` rows after one more row, for rows and stamps alike |
| StreamEval.StreamedEqualsDirect | scripts/sp3_benchmark.py:169-194 | In every interleaving, entry k is the strategy on the last min(k + 2, lookback) rows ending at row k + 1, and a call that returns has an entry for every row after the first |
| StreamEval.NoReplyMispaired | scripts/sp3_benchmark.py:111-154 | A reply in the pipe is the only one, answers the row just sent, and is accepted for it |
| BudgetPlan.CostIsMonotone | scripts/sp3_benchmark.py:214-229 | A longer period never costs less |
| BudgetPlan.FitPeriod | scripts/sp3_benchmark.py:232-241 | A period in the range fits if and only if it is at most the returned one; none is returned if and only if the range is empty or the minimum does not fit |
| BudgetPlan.Extrapolate | scripts/sp3_benchmark.py:244-263 | What the estimate's fields say about the costs |
| BudgetPlan.Rule | scripts/sp3_benchmark.py:266-278 | For every request the ruling is right: keep means it fits, "even the minimum" that no period from the minimum on fits, reduce names the longest period that fits |
| JobScheduler.SpawnsFollowDependencies | pycron/pycron.py:152-188 | In every run a spawned job has all its dependencies configured, and each was spawned or adopted before it |
| JobScheduler.OneStartAtATime | pycron/pycron.py:153-183 | At most one start attempt per job is between its first statement and the spawn |
| JobScheduler.CyclesNeverStart | pycron/pycron.py:166-183 | Jobs that wait for each other, none of them adopted, never start in any run |
| JobScheduler.CycleWaits | pycron/pycron.py:171-174 | The jobs of a dependency cycle wait for each other |
| JobScheduler.FailedSpawnSticks | pycron/pycron.py:152-183 | An exception between the first statement and the spawn leaves the job marked as starting with no attempt to clear it |
| JobScheduler.SticksExactly | pycron/pycron.py:152-183 | A step leaves a job like that if and only if it is such an exception |
| JobScheduler.StuckExactly | pycron/pycron.py:152-183 | In every run a job is stuck if and only if a start of it has failed there before |
| JobScheduler.StuckForever | pycron/pycron.py:152-183 | From then on no run ever spawns the job again |
| JobScheduler.AStartThatSticks | pycron/pycron.py:177-183 | A run of a crontab with one job whose spawn raises, and that is stuck without ever having run |
| JournalFeed.FakeJournalFeed.Append | scripts/soak_harness.py:56-59 | The event joins the log, which is otherwise unchanged |
| JournalFeed.FakeJournalFeed.Close | scripts/soak_harness.py:77-80 | The feed is closed with its log unchanged |
| JournalFeed.FakeJournalFeed.Poll | scripts/soak_harness.py:61-75 | The chunk is the first `limit` events after the cursor, the returned cursor is that of its last event or the old one, and a call waits on only while the chunk is empty, the feed open and time left |
| JournalFeed.DomainProducer.Emit | scripts/soak_harness.py:113-132 | The next event of the producer's sequence: the next cursor, and one more revision of its instrument |
| JournalFeed.ReadersMissNothing | scripts/soak_harness.py:61-75 | In every interleaving, what a reader got followed by what it would still get is the log after its first cursor |
| JournalFeed.ShortChunkIsCaughtUp | scripts/soak_harness.py:66-71 | A chunk below the limit means that the reader has everything after its first cursor |
| JournalFeed.RevisionsAreGapFree | scripts/soak_harness.py:113-131 | In every interleaving of the producer and its readers, consecutive events of one entity, as a reader gets them, carry consecutive revisions |
| JournalFeed.FirstRevisionIsTwo | scripts/soak_harness.py:113-120 | In every such interleaving a reader from cursor 0 sees every entity's revisions from 2 on |
| Watchdog.BusyStreak.Record | trader/trader_service.py:266-274 | The streak keeps its first start, and reports when it has lasted long enough and has not reported yet |
| Watchdog.BusyStreak.Clear | trader/trader_service.py:262-264 | The streak starts over |
| Watchdog.WatchedTicks | trader/trader_service.py:220-251 | The loop over given ticks follows a run of the step relation, reports a tick as stuck if and only if it still ran when its first wait was resumed, and a busy streak at exactly the tick whose handling brings it to `stuck_after` |
| Watchdog.OneCallAtATime | trader/trader_service.py:233-251 | In every run at most one call is running, and only while the loop is in one of its two waits |
| Watchdog.StuckOnceExactly | trader/trader_service.py:234-241 | In every run, however late the event loop is, a call is reported as still running once, if and only if it still ran when its first wait was resumed |
| Watchdog.StuckByTheClock | trader/trader_service.py:236-241 | A reported call had run for `stuck_after` and returned no earlier than the wait was resumed; one that is not reported had returned by then |
| Watchdog.TicksNeverOverlap | trader/trader_service.py:233-251 | In every run a tick starts only after all earlier calls have returned, and at least `interval` later |
| Watchdog.StreakReportsOnce | trader/trader_service.py:254-274 | In every run a maximal busy streak reports at most once, and if and only if it lasted `stuck_after` from the start of its first tick to the handling of its last |
| Downloads.ConcurrencyIsBounded | trader/data_service.py:129-164 | In every interleaving of any number of calls, a semaphore's permits and the tasks that hold one make up `max_concurrent`, so no more downloads of a call run at once, and the running count is exact |
| Downloads.CountersBalance | trader/data_service.py:139-164 | When every call is over, the running count and all permits are back, and the service counters have grown by the downloads that ended well and those that raised |
| Downloads.Tally | trader/data_service.py:283-304 | Completed plus failed is enqueued plus refused, completed counts the good results, and the errors are the refusals followed by the messages |
| Downloads.SummaryMatchesCounters | trader/data_service.py:288-304 | A call's summary against the service counters: cancelled tasks and refusals are failures of the call only |
| ContainerModel.OneInstancePerType | trader/container.py:241-249 | In every interleaving all `resolve_cache` calls for a type return one instance, the cached one |
| ContainerModel.EntriesNeverChange | trader/container.py:246-249 | A cache entry, once set, stays |
| ContainerModel.ResolvingIsInFlight | trader/container.py:180-233 | `_resolving` is exactly the set of types being built, each by one call |
| ContainerModel.NestingIsBounded | trader/container.py:180-233 | Over finitely many types no thread is more than 2 n + 1 calls deep |
| ContainerModel.RefusedWhenInFlight | trader/container.py:183-187 | `resolve` refuses a type if and only if some call, of any thread, is building it |
| ContainerModel.RefusedWithoutACycle | trader/container.py:183-187 | A run in which a second thread is refused a type that needs no other, because the first is building it |

## Left out

- Rounding of floats and the sign of zero; dates, time zones and the hour that repeats when daylight saving ends (a bar carries its session date and minute, and `OpeningRange` assumes that no window bar of a day follows a bar past the window).
- GapDays.NoLookahead: needs each session to open with a known price; `NoLookaheadExactly` says exactly when it holds without.
- ShardRuns.ShardsRunEveryTestOnce: recorded ids of listed files still exist, and test ids are leaves of pytest's tree; pytest is modelled by its rules for collecting an argument and for deselecting by prefix.
- ToMarket.ConservedAfterReread: the statuses it speaks of are truthful at the moment of the snapshot or unpopulated; a status that is wrong in another way is not modelled, and the stop-loss child that the market order gets is not followed.
- JobScheduler.SpawnsFollowDependencies: a dependency with `eval_running` is whatever its expressions say, so nothing is claimed for it; when tasks are created is left open, and `restart_job` and the flags it may overwrite are not claimed to be accurate.
- JobScheduler, Downloads, ContainerModel, ToMarket, the loop of Watchdog and the pipes of StreamEval are step relations and not classes: their claims are about interleavings of coroutines, threads and outside parties.
- Watchdog.StuckByTheClock: a call that returns at the very instant its wait is resumed may have been reported or not; the clock does not tell.
- ResizePlan.NeverTwoLive: a cancel takes effect before the re-creation, before the next attempt, or not during the run.
- Protective orders that fill by themselves during a resize, other orders than those of the plan, and the trailing percentage of an order, which the plan always notes as 0.
- Conversion to the base currency (`_to_base`) is a value supplied with each position; a missing position quantity counts as 0 and a NaN quantity is not modelled.
- The look-up of a stop-loss child in `to_market`, and the contract and execution specification passed on to the broker.
- `gap_reversion.on_bar`, whose rules are single comparisons on the modelled columns.
- `record` and `node_id` of the shard script, which only write the timings file.
- Parameter look-up inside `Container.resolve` (arguments, environment, configuration): a constructor step succeeds or fails.
- The process of the streaming child (JSON, pipes, time limits) beyond frames, replies, death and giving up; a lookback of 0, which the child does not accept.
- `_download_ib_one` and `pull_ib`, which follow the modelled pattern; which date ranges are missing.
- Negative chunk limits of the journal, and its wall clock: a call may run out of time at any moment.
- The web dashboard, release gates, drills, report printers and configuration tables: nothing algorithmic is decided there.
