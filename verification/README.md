# TradeSync, its small hard parts

A Dafny model of the parts of TradeSync that carry self-contained guarantees, with proofs of those
guarantees. `dafny verify dfyconfig.toml` checks the whole project.

- **The kill switch** (`HarnessServer`, `HarnessHost`, `HarnessProtocol`, `HarnessRecovery`, `HarnessSession`).
  A host polls a server for a command, claims it, writes it to a state file, applies it and reports the
  result. Server, state file and host form a step system in which the process may die between any two
  effects, a reply may be lost, a save may fail, the file may be lost and the server may be reseeded.
  `HarnessRecovery` is about one pass without failures, from whatever that left. `HarnessSession` is the
  host's pass as the imperative code it is, and every state it goes through is a state of that system.
  Calls of `gateway.apply` are one opaque effect, kept in a history.
- **The journal** (`DurableJournal`, `ByteLines`). Bytes, lines, torn tails and a disk that remembers every
  file a power cut could leave behind. JSON is a pair of functions with two laws: a record's text holds no
  newline, and reading it back gives the record.
- **Exact orders** (`Decimals`, `Rounding`, `OrderRounding`, `DecimalText`, `OrderActions`). Decimals as a sign, a
  coefficient and a power of ten, under a 28-digit context; actions as JSON objects whose key order matters.
- **One-pass statistics** (`HorizonWindows`, `HorizonSeries`, `HorizonRank`, `HorizonWeights`). Loops over deques,
  sorted lists and running sums against plain definitions of the same window.
- **Combining evidence** (`EvidenceBins`, `EvidenceScoring`, `EvidenceCorrelation`, `EvidenceWeights`,
  `EvidenceRedundant`). Binning, Murphy's decomposition, the pooled residual correlation and the weights that
  keep sources that repeat each other from voting twice.
- **The ledger bridge** (`LedgerBridge`). Two append-only ledgers posted in batches, a cursor saved only
  after the rows before it were posted, others appending between any two effects, and passes that fail anywhere.
- **Readings and attribution** (`EntryFeatures`, `FeatureStatistics`, `PositioningReadings`, `FeatureWeights`,
  `BlockEvaluation`, `DecisionContributions`). What was known at entry, and shares that add back up to what was decided.
- `Common`, `Sums`, `Sorting` and `Reals` hold what several of them use.

Floats are reals, `round(x, n)` on an output is dropped, and the logarithm and the square root are
function parameters; of the square root only its defining law is asked.

## Where the code and its documentation differ

The models follow the code.

- The journal promises that a record is on disk before it is acknowledged (`durable_journal.py:51-52`). The
  directory is synced only by the append that found no file. If that append stops before the sync, the next
  one finds the file there, does not sync the directory, and returns: a power cut can then take the file and
  the acknowledged record. `DurableJournal.Append` says exactly when what was acknowledged survives, and
  `AcknowledgedCanVanish` shows the gap. `records` is documented as every acknowledged record
  (`durable_journal.py:80`); it also returns complete lines of appends that never returned.
- `decimal_to_wire` is documented as plain notation, and formats `value.normalize()`, which rounds to the
  context's 28 digits: a longer number prints as another number. `order_wire` refuses such a text, because it
  does not print as itself.
- `decimal_to_wire` refuses a number by how it is written, not only by what it is: from ten to the twentieth
  on, a form with more than eight places is refused even if they are all zero (`EqualNumbersPrintAlike`).
- `cancel_action` and `cancel_by_cloid_action` pass their asset on unread, so a rebuilt cancel is independent of
  key order exactly when no object with two keys is inside the asset (`KeyOrderExactly`).
- `signed_readings` promises that no sample observed after entry is read (`readings.py:6-7`). A recorded value
  is used with its own stamp, so a z-score stamped later than the first millisecond after entry reads ahead, and
  so does a change whose base is not known by entry. `KnownAtEntryExactly` is the exact condition.
- `rolling_volatility` is documented as `daily_volatility` of every window (`horizon_stats.py:145`). It has no
  least number of returns, so the two part for lookbacks below ten and, once the daily figure has enough
  returns, before the first full window (`RollingAgreesWithDaily`).
- The directional shares are documented as summing to the directional score (`decision_contributions.py:12-14`).
  A contributor without a feature id counts in the score a replay recomputes and gets no share;
  `ReplayedSharesExactly` says when the sum holds all the same.

## Model

| member | source | states |
|---|---|---|
| HarnessServer.StatusAgreesWithLog | services/state-api/app/harness_control_rules.py:79-86 | In every consistent state the one control row and the audit log agree: finished exactly when the log holds a result of the current command, being applied exactly when it holds a claim and no result, pending exactly when a claim would be granted; and a claim is granted for no other command |
| HarnessServer.LateResultIsOnlyAudited | services/state-api/app/harness_control_store.py:156-183 | A late result for an older command enters the audit log and leaves the current command's result alone |
| HarnessServer.RequestKeeps | services/state-api/app/harness_control_store.py:113-130 | A request with a new id keeps row and log consistent: one request, one claim and one result per command at most |
| HarnessServer.ClaimKeeps | services/state-api/app/harness_control_store.py:64-72 | A claim, granted or refused, keeps row and log consistent |
| HarnessServer.RecordKeeps | services/state-api/app/harness_control_store.py:75-83 | A report, recorded, duplicate or unknown, keeps row and log consistent |
| HarnessHost.TrimDropsOldestReported | tools/hermes_harness_control.py:88-90 | A save evicts exactly the oldest reported entries, as many as the excess over KEEP or all there are, and keeps the order of the rest |
| HarnessHost.TrimKeeps | tools/hermes_harness_control.py:88-90 | A save loses no unreported entry, adds none, keeps one entry per command, and leaves at most KEEP entries or nothing reported |
| HarnessHost.HostState.Save | tools/hermes_harness_control.py:88-94 | The save loop trims the entries to that form in place; the file becomes them or, when writing fails, stays as it was |
| HarnessHost.HostState.Find | tools/hermes_harness_control.py:96-97 | Finds the first entry with the id, and finds one exactly when there is one |
| HarnessHost.HostState.Begin | tools/hermes_harness_control.py:99-102 | Appends the entry of a command being run, and saves |
| HarnessHost.HostState.Finish | tools/hermes_harness_control.py:104-106 | Writes the outcome into the first entry with the id and into no other, and saves |
| HarnessHost.HostState.RecordUnrun | tools/hermes_harness_control.py:108-111 | Appends a failed entry for a command that was not run, and saves |
| HarnessHost.HostState.MarkReported | tools/hermes_harness_control.py:119-121 | Marks the first entry with the id as reported, and saves |
| HarnessProtocol.StepKeepsInv | tools/hermes_harness_control.py:131-172 | Each step of the host, the server and the world (requests, crashes between any two effects, lost replies, failed saves, a lost state file, a reseeded server) keeps the invariant |
| HarnessProtocol.AppliedAtMostOnce | tools/hermes_harness_control.py:144-172 | Over every run each command is applied at most once, and in the order the commands were asked for |
| HarnessProtocol.NeverAppliedAgain | tools/hermes_harness_control.py:155-164 | A command with a record on the host, or already shown as being applied, is never applied (again) in any continuation, unless the pass that was granted its claim is just about to apply it |
| HarnessProtocol.ReportsAreTrue | tools/hermes_harness_control.py:131-141 | The server shows a command as applied only if the gateway really was changed for it |
| HarnessProtocol.RecordsAreSound | tools/hermes_harness_control.py:88-121 | In every reachable state the recorded ids are distinct, at most one entry is running, an entry is marked reported only when the server has its result or answers 404, and the file holds at most KEEP entries or nothing reported |
| HarnessProtocol.FileForgetsOnlySettled | tools/hermes_harness_control.py:88-94 | A result leaves the state file only once the server has it or answers 404 for it |
| HarnessProtocol.ServerStaysConsistent | tools/qa_harness_control_sql.py:105-138 | Over every run row and log stay consistent: no command has two requests, two claims or two results |
| HarnessProtocol.LogTellsWhatWasAsked | services/state-api/app/harness_control_store.py:113-183 | Over every run each line of the audit log, request, claim or result, carries the state that its command asked for |
| HarnessRecovery.HealthyPass | tools/hermes_harness_control.py:131-172 | From any state between two passes, whatever was interrupted, unsaved or unreported before: a pass in which nothing fails ends with every entry complete and reported, applies the current command exactly if it was pending, once, and nothing else, and leaves its outcome on the server; a command shown as being applied ends as success exactly if the host holds a result that says so |
| HarnessRecovery.AnyRunRecovers | tools/hermes_harness_control.py:144-172 | That pass is a run of steps: any run that ends between two passes can be continued by one that settles everything |
| HarnessSession.Session.Deliver | tools/hermes_harness_control.py:131-141 | The delivery loop, with failures between any two effects, goes only through states of the step system and applies nothing |
| HarnessSession.Session.CloseInterrupted | tools/hermes_harness_control.py:146-147 | What an earlier process left running is closed as failed, and nothing is run |
| HarnessSession.Session.ClaimAndApply | tools/hermes_harness_control.py:161-172 | The gateway is changed at most once, only for this command, and never when the claim is refused |
| HarnessSession.Session.RunPass | tools/hermes_harness_control.py:144-172 | One poll as imperative code, in terms of what happened: idle only when the server handed nothing out, handled only when the host has an entry for what was handed out, not claimed only when the claim was answered and not granted, not run again only when that was written down, raised only when a request, a save or the apply failed. If nothing fails and the world stands still, the pending command is applied once and no other, every entry is reported, and the server shows what came of it |
| HarnessSession.Session.Run | tools/hermes_harness_control.py:210-228 | Any number of polls, deaths and restarts: no command runs twice, and commands run in the order asked |
| DurableJournal.ScanBack | libs/tradesync_core/tradesync_core/durable_journal.py:112-124 | The backward scan, in blocks of any size, finds exactly the end of the last complete line |
| DurableJournal.ReadsBack | libs/tradesync_core/tradesync_core/durable_journal.py:88-101 | Reading a file of written lines followed by any torn tail gives exactly the records written |
| DurableJournal.RefusesAtFirstBadLine | libs/tradesync_core/tradesync_core/durable_journal.py:92-101 | A read fails exactly when some complete line is not a record, and names the first such line |
| DurableJournal.CarriesMeans | libs/tradesync_core/tradesync_core/durable_journal.py:79-80 | What a faithful file carries: the acknowledged records in order, and beside them only records whose append did not return |
| DurableJournal.DurableJournal.Append | libs/tradesync_core/tradesync_core/durable_journal.py:51-77 | Refused exactly for what is not plain JSON or too large, changing nothing; otherwise it returns with the torn tail gone and its line last, or stops leaving a faithful file. What was acknowledged survives a power cut exactly when the file was new to this append or its directory entry was already on disk |
| DurableJournal.DurableJournal.CutTornTail | libs/tradesync_core/tradesync_core/durable_journal.py:104-126 | Leaves exactly the bytes through the last newline |
| DurableJournal.DurableJournal.SyncLine | libs/tradesync_core/tradesync_core/durable_journal.py:69-73 | With the line written, what is acknowledged survives a power cut exactly when the directory entry is on disk, which syncing the directory of a new file sees to |
| DurableJournal.DurableJournal.Records | libs/tradesync_core/tradesync_core/durable_journal.py:79-101 | On any file only this journal wrote, the read never fails and carries the history |
| DurableJournal.DurableJournal.PowerCut | libs/tradesync_core/tradesync_core/durable_journal.py:62-75 | Whatever file a power cut leaves is faithful; acknowledged records are lost exactly when it leaves none and there were some |
| DurableJournal.DurableJournal.AnyRun | libs/tradesync_core/tradesync_core/durable_journal.py:51-126 | After any run of appends that return or stop anywhere and of power cuts at any time, reading succeeds, the records acknowledged since the file was last lost are a subsequence of it and it is a subsequence of what was asked; nothing is ever lost unless the append that made the file did not return |
| DurableJournal.AcknowledgedCanVanish | libs/tradesync_core/tradesync_core/durable_journal.py:62-75 | The gap: an append that creates the file and stops before the directory sync lets a later, acknowledged append vanish in a power cut |
| OrderRounding.RoundPriceIsBest | libs/tradesync_core/tradesync_core/hyperliquid_orders.py:82-96 | A rounded price is in the venue's grid (whole, zero included, or five significant figures and at most 6 - szDecimals decimals), on the safe side of the bound, and the best such price there is |
| OrderRounding.RoundedPriceIsPositive | libs/tradesync_core/tradesync_core/hyperliquid_orders.py:82-96 | The result is never negative, and is zero exactly for a buy below the smallest price there is, ten to the szDecimals - 6 |
| OrderRounding.RoundedToGrid | libs/tradesync_core/tradesync_core/hyperliquid_orders.py:94-96 | The two roundings in a row amount to one rounding onto the coarser of the two grids, carries into a new digit included |
| OrderRounding.RoundPriceSucceeds | libs/tradesync_core/tradesync_core/hyperliquid_orders.py:82-96 | For szDecimals 0 to 6 and a positive price the rounding succeeds exactly below ten to the 28th for a buy, and for a sell up to the last whole number below it; from there on the 28 digits do not hold it |
| OrderRounding.RoundSizeIsBest | libs/tradesync_core/tradesync_core/hyperliquid_orders.py:75-79 | A size is cut to the largest number of lots that is not above it, keeping its sign |
| OrderRounding.RoundSizeSucceeds | libs/tradesync_core/tradesync_core/hyperliquid_orders.py:75-79 | It succeeds exactly for lots of zero or more decimals, while the lots fit into 28 digits |
| DecimalText.PrintedReadsBack | libs/tradesync_core/tradesync_core/hyperliquid_orders.py:60-72 | The printed text always reads as a number, and reads back as the same number exactly when that has at most 28 significant digits |
| DecimalText.LongNumbersAreRounded | libs/tradesync_core/tradesync_core/hyperliquid_orders.py:71 | Beyond 28 digits printing rounds: a whole family of numbers that print as another number |
| DecimalText.PrintsExactly | libs/tradesync_core/tradesync_core/hyperliquid_orders.py:60-72 | A number is printed exactly when it is zero, is written with at most eight places, or needs no more than eight and is below ten to the twentieth |
| DecimalText.ShortPrintsExactly | libs/tradesync_core/tradesync_core/hyperliquid_orders.py:60-72 | With at most 28 digits a number is refused exactly when it needs more than eight places |
| DecimalText.EqualNumbersPrintAlike | libs/tradesync_core/tradesync_core/hyperliquid_orders.py:60-72 | Two forms of one number print the same text or are both refused, except exactly when the number is ten to the twentieth or more, needs at most eight places, and only one form is written with more |
| DecimalText.ShortNumbersPrintAlike | libs/tradesync_core/tradesync_core/hyperliquid_orders.py:60-72 | So equal numbers of at most 28 digits always print alike, refusals included |
| DecimalText.LargeNumberTwoForms | libs/tradesync_core/tradesync_core/hyperliquid_orders.py:64-70 | The exception exists: ten to the 25th prints, and the same number written with nine places is refused |
| DecimalText.AcceptedExactly | libs/tradesync_core/tradesync_core/hyperliquid_orders.py:116-120 | A price or size text is taken exactly when it is in the venue's form: no leading or trailing zeros, at most eight decimals and 28 digits, positive |
| DecimalText.PrintedIsAccepted | libs/tradesync_core/tradesync_core/hyperliquid_orders.py:116-120 | Whatever is printed of a positive number is a text an order may carry |
| DecimalText.RoundedPriceIsSent | libs/tradesync_core/tradesync_core/hyperliquid_orders.py:82-120 | A rounded price always prints, reads back as itself, and is taken exactly when it is not a buy rounded down to zero |
| DecimalText.RoundedSizeIsSent | libs/tradesync_core/tradesync_core/hyperliquid_orders.py:75-120 | A size cut to its lot always prints, reads back as itself, and is taken when something positive is left |
| OrderActions.OrderWireFixed | libs/tradesync_core/tradesync_core/hyperliquid_orders.py:164-174 | Rebuilding an order wire that was rebuilt changes nothing |
| OrderActions.WireInVenueOrder | libs/tradesync_core/tradesync_core/hyperliquid_orders.py:121-133 | An order wire carries the venue's keys in the venue's order |
| OrderActions.OrderWireBuilt | libs/tradesync_core/tradesync_core/hyperliquid_orders.py:99-133 | An order is built exactly from an index, two flags, two venue decimals, one of three tifs and at most a client id, and its wire reads back as what was asked, part by part, the client id exactly when one was given |
| OrderActions.RebuiltExactly | libs/tradesync_core/tradesync_core/hyperliquid_orders.py:177-200 | An action is rebuilt exactly when it is one of the four kinds, made of what such an action may be made of |
| OrderActions.RebuiltSaysTheSame | libs/tradesync_core/tradesync_core/hyperliquid_orders.py:164-200 | The rebuilt action asks for the same: every venue key of every order has the value it came with, and so have the ids and the asset of a cancel and the id of a modify |
| OrderActions.CanonicalActionFixed | libs/tradesync_core/tradesync_core/hyperliquid_orders.py:177-191 | Rebuilding an action twice is rebuilding it once, key order included |
| OrderActions.OrderActionFixed | libs/tradesync_core/tradesync_core/hyperliquid_orders.py:136-140 | The rebuilt form of an order action is the action the builder made |
| OrderActions.CancelFixed | libs/tradesync_core/tradesync_core/hyperliquid_orders.py:143-147 | The rebuilt form of a cancel is the action the builder made |
| OrderActions.CancelByCloidFixed | libs/tradesync_core/tradesync_core/hyperliquid_orders.py:150-154 | The rebuilt form of a cancel by client id is the action the builder made |
| OrderActions.ModifyFixed | libs/tradesync_core/tradesync_core/hyperliquid_orders.py:157-161 | The rebuilt form of a modify is the action the builder made |
| OrderActions.KeyOrderDoesNotMatter | libs/tradesync_core/tradesync_core/hyperliquid_orders.py:177-200 | However storage reordered the keys of any action at any depth, both are refused alike, or the rebuilt actions are equal exactly when the assets that a cancel passes on unread are; orders and modifies pass nothing on |
| OrderActions.KeyOrderExactly | libs/tradesync_core/tradesync_core/hyperliquid_orders.py:143-154 | For any one action: every reordering is rebuilt to the same action exactly when the action is refused or no object with two keys is inside the asset of its cancel |
| HorizonWindows.IndependentWindows | libs/tradesync_core/tradesync_core/horizon_stats.py:45-52 | The greedy count is the largest number of the given days that can be chosen pairwise at least `days` apart, in any order, with duplicates |
| HorizonWindows.PickedIsMost | libs/tradesync_core/tradesync_core/horizon_stats.py:45-52 | Taking the earliest window that fits never loses: no spaced choice is longer |
| HorizonSeries.MovingAverages | libs/tradesync_core/tradesync_core/horizon_stats.py:97-106 | Each output is the mean of the last n closes, once there are n |
| HorizonSeries.RollingExtreme | libs/tradesync_core/tradesync_core/horizon_stats.py:109-122 | Each output is the true maximum or minimum of its full window, and the pops over the whole run are at most the number of values |
| HorizonSeries.SlideDeque | libs/tradesync_core/tradesync_core/horizon_stats.py:115-121 | The deque keeps increasing indices inside the window, values strictly more extreme than every later one, and an index that covers each day of the window |
| HorizonSeries.OnePassVariance | libs/tradesync_core/tradesync_core/horizon_stats.py:138-140 | The running sums give the two-pass sample variance of the window, which is never negative, so the maximum with zero changes nothing |
| HorizonSeries.RollingVariance | libs/tradesync_core/tradesync_core/horizon_stats.py:126-141 | Every day's figure is the sample variance of the returns of its own window, for any logarithm |
| HorizonSeries.RollingAgreesWithDaily | libs/tradesync_core/tradesync_core/horizon_stats.py:169-176 | On positive closes and a lookback of at least two the rolling figure of a day is the daily figure of the prefix that ends there exactly when, with a full window, the lookback is at least ten, and before that exactly while the daily figure has too few returns |
| HorizonRank.RollingRank | libs/tradesync_core/tradesync_core/horizon_stats.py:150-161 | Each output is the share of the values of its own window at or below its own value, counted afresh, or nothing when too few are there |
| HorizonRank.FoundWhenPresent | libs/tradesync_core/tradesync_core/horizon_stats.py:159 | Bisection in the sorted list finds an equal element whenever the departing value is there |
| HorizonRank.Slide | libs/tradesync_core/tradesync_core/horizon_stats.py:154-159 | The list stays sorted and holds exactly the values of the last `window` days, as a multiset |
| HorizonRank.BisectCounts | libs/tradesync_core/tradesync_core/horizon_stats.py:160 | The right insertion point counts the values at or below |
| HorizonWeights.StateLeans | libs/tradesync_core/tradesync_core/horizon_weights.py:41-56 | The leans name exactly the states whose own windows, eight independent ones at least, rose more or less often than the base by the edge |
| HorizonWeights.LeansIgnoreOtherDays | libs/tradesync_core/tradesync_core/horizon_weights.py:41-56 | What a state leans depends on the learning days alone, whatever every other day says |
| HorizonWeights.TestIsHeldOut | libs/tradesync_core/tradesync_core/horizon_weights.py:66-77 | No learning window reaches into a scored test window; the scored windows start in leaning states, are at least `steps` apart, and are as many as can be |
| HorizonWeights.HeldOutSkill | libs/tradesync_core/tradesync_core/horizon_weights.py:59-96 | Too little history earns nothing; otherwise the leans are those of the learning days and the figures those of the scored test windows |
| HorizonWeights.WeightEarned | libs/tradesync_core/tradesync_core/horizon_weights.py:90-92 | A weight lies in [0, 1) and is positive exactly when skill is positive, chance is strictly between 0 and 1, and skill squared times n is at least chance (1 - chance) |
| HorizonWeights.ShrunkGrows | libs/tradesync_core/tradesync_core/horizon_weights.py:92 | What is earned grows with the skill, up to one half, and with the number of windows |
| HorizonWeights.ShrunkAtThirty | libs/tradesync_core/tradesync_core/horizon_weights.py:92 | Thirty windows earn the skill itself, up to one half |
| HorizonWeights.EarnedGrows | libs/tradesync_core/tradesync_core/horizon_weights.py:90-92 | More skill against the same chance, over at least as many windows, never earns less |
| HorizonWeights.SteadyMarketEarnsNothing | libs/tradesync_core/tradesync_core/horizon_weights.py:7-10 | A market that only rose, or never rose, during the test rewards no feature, whatever states it called and when |
| HorizonWeights.OneWayEarnsNothing | libs/tradesync_core/tradesync_core/horizon_weights.py:83-92 | Where every test day is scored and called the same way, up or down, the feature earns nothing |
| HorizonWeights.OneWayEdge | libs/tradesync_core/tradesync_core/horizon_weights.py:93 | The edge of one-way calls is what the market did over the scored windows, with the sign of the calls |
| HorizonWeights.CombinedBounds | libs/tradesync_core/tradesync_core/horizon_weights.py:107-124 | There is a reading exactly when some feature earned weight; its score is within 1 and within the total weight earned, either way |
| HorizonWeights.ScoreIsNetWeight | libs/tradesync_core/tradesync_core/horizon_weights.py:114-121 | The score is the net weight that points up over the larger of the total and one, and reads as a lean from two tenths on |
| HorizonWeights.OneSidedScore | libs/tradesync_core/tradesync_core/horizon_weights.py:114-121 | Where every earned feature leans one way so does the score, by the whole weight or by one |
| HorizonWeights.UnearnedWeighsNothing | libs/tradesync_core/tradesync_core/horizon_weights.py:114-119 | A feature that earned nothing changes nothing, whatever its lean |
| EvidenceBins.EqualCountBins | libs/tradesync_core/tradesync_core/evidence_combination_scoring.py:65-80 | At most `bins` non-empty groups that together are a sorted permutation of all indices, every forecast of an earlier group below every one of a later, ending where the equal shares of the count end; refused exactly for fewer than one bin |
| EvidenceBins.BinsAreEqualCount | libs/tradesync_core/tradesync_core/evidence_combination_scoring.py:73-79 | The groups end exactly where the bins have to: each at the least place, from the whole number nearest to its share of the count on, where the neighbouring forecasts differ |
| EvidenceBins.DifferentForecastsEvenBins | libs/tradesync_core/tradesync_core/evidence_combination_scoring.py:65-66 | With no two forecasts equal the first k shares are held to within half a decision, and no group is more than one decision from an equal share |
| EvidenceBins.OrderIsSorted | libs/tradesync_core/tradesync_core/evidence_combination_scoring.py:70 | The order holds every index once, by forecast and then by index |
| EvidenceBins.CutsMeet | libs/tradesync_core/tradesync_core/evidence_combination_scoring.py:74-79 | Starting from where the last bin ended, the loop ends each bin at the first place, from its share of the count on, where no two equal forecasts would be parted |
| EvidenceScoring.MurphyWithin | libs/tradesync_core/tradesync_core/evidence_combination_scoring.py:14-19 | For any binning, Brier = reliability - resolution + uncertainty plus the within-bin variances less twice the covariances, exactly |
| EvidenceScoring.MurphyExact | libs/tradesync_core/tradesync_core/evidence_combination_scoring.py:14-19 | Where the forecasts of each bin are the same, Brier = reliability - resolution + uncertainty exactly |
| EvidenceScoring.AveragesAre | libs/tradesync_core/tradesync_core/evidence_combination_scoring.py:147-181 | The Brier score, the mean probability and the share that rose are the averages they are named after |
| EvidenceScoring.CalibrationWithin | libs/tradesync_core/tradesync_core/evidence_combination_scoring.py:165-171 | The calibration error is a mean of how far off the bins are, between the least and the most |
| EvidenceScoring.CalibrationAtLeastBias | libs/tradesync_core/tradesync_core/evidence_combination_scoring.py:165-181 | It is at least as large as the mean probability is off from the share that rose |
| EvidenceScoring.CalibratedExactly | libs/tradesync_core/tradesync_core/evidence_combination_scoring.py:165-171 | It and the reliability are never negative, and zero exactly when every bin forecasts the share of it that rose |
| EvidenceScoring.ScoreForecast | libs/tradesync_core/tradesync_core/evidence_combination_scoring.py:145-181 | Scores exactly the well-formed inputs; its accumulated terms are those of the bins and satisfy the decomposition |
| EvidenceCorrelation.OnePassIsCentred | libs/tradesync_core/tradesync_core/evidence_combination_dependence.py:69-71 | The one-pass sums give the centred sum of products of an outcome class |
| EvidenceCorrelation.CauchySchwarz | libs/tradesync_core/tradesync_core/evidence_combination_dependence.py:66-76 | The pooled covariance squared is at most the product of the pooled spreads, with no spread at all included |
| EvidenceCorrelation.ResidualCorrelation | libs/tradesync_core/tradesync_core/evidence_combination_dependence.py:52-76 | Nothing exactly when a pooled spread is at most the threshold; otherwise the pooled centred correlation, which lies in [-1, 1] without the clamp |
| EvidenceWeights.ShrinkKeepsShare | libs/tradesync_core/tradesync_core/evidence_combination_dependence.py:79-87 | Shrinking keeps the share effective / (effective + prior) of the distance from full redundancy |
| EvidenceWeights.PairRedundancyBounds | libs/tradesync_core/tradesync_core/evidence_combination_dependence.py:104-145 | A pair is redundant by between 0 and 1, fully with no shared windows, and never less than its signed correlation |
| EvidenceWeights.RedundancyWeights | libs/tradesync_core/tradesync_core/evidence_combination_dependence.py:148-160 | Exactly the contributing sources get a weight, each its own 1 / R |
| EvidenceWeights.WeightBounds | libs/tradesync_core/tradesync_core/evidence_combination_dependence.py:148-160 | Every weight is in (0, 1], and when the k sources of the decision repeat each other by at most 1 none weighs less than 1 / k |
| EvidenceWeights.WeightIgnoresOrder | libs/tradesync_core/tradesync_core/evidence_combination_dependence.py:148-160 | The order of the sources changes no weight |
| EvidenceWeights.Kish | libs/tradesync_core/tradesync_core/evidence_combination_dependence.py:30-32 | Equally strong sources that repeat each other by a common r each weigh 1 / (1 + (k - 1) r) |
| EvidenceWeights.CopiesCountOnce | libs/tradesync_core/tradesync_core/evidence_combination_odds.py:50-61 | Exact copies, fully redundant among themselves, move the log odds as one of them does, however many |
| EvidenceWeights.IndependentAddUp | libs/tradesync_core/tradesync_core/evidence_combination_odds.py:50-61 | Where no source of the decision repeats another the log odds are the naive sum over the prior |
| EvidenceWeights.LogOddsIgnoreOrder | libs/tradesync_core/tradesync_core/evidence_combination_odds.py:50-61 | The order of the sources does not change the log odds |
| EvidenceWeights.FittedIsSymmetric | libs/tradesync_core/tradesync_core/evidence_combination_model.py:181-186 | The redundancy a fit gives a pair does not depend on which source is named first |
| EvidenceWeights.MeasuredIsFound | libs/tradesync_core/tradesync_core/evidence_combination_model.py:181-186 | A pair that was measured, stored under its sources in ascending order, is found from either side |
| EvidenceWeights.UnmeasuredCopiesCountOnce | libs/tradesync_core/tradesync_core/evidence_combination_model.py:181-201 | Sources that were never measured together and say the same count once, whatever else was measured |
| EvidenceRedundant.RedundantAtMostStrongest | tests/test_evidence_combination_dependence.py:90-95 | Sources fully redundant among themselves, of any strengths and signs, never move the log odds by more than the strongest of them |
| EvidenceRedundant.UnmeasuredAtMostStrongest | libs/tradesync_core/tradesync_core/evidence_combination_model.py:181-201 | So sources no two of which were measured together never say more than the strongest of them |
| LedgerBridge.ReadAppended | tools/strikezone_quant_bridge.py:181-195 | Reads exactly the complete lines past the cursor within the size first taken, though the file has grown since, from the start when that size is below the cursor, and stops just past the last newline |
| LedgerBridge.ReadsToLastLine | tools/strikezone_quant_bridge.py:181-195 | From a cursor at a line end, reading reaches exactly the end of the last complete line |
| LedgerBridge.ParsesLineByLine | tools/strikezone_quant_bridge.py:194-207 | With newline the only separator, the rows of two stretches of whole lines are the rows of one and then of the other |
| LedgerBridge.SettledWasSent | tools/strikezone_quant_bridge.py:263-284 | In any sequence of effects, what the saving passes posted since the state was last lost was stored by the server as often and in that order |
| LedgerBridge.Bridge.PostRows | tools/strikezone_quant_bridge.py:269-275 | Posts batches of at most 500 in order, up to the first that fails, while others append between them; a dry run posts nothing |
| LedgerBridge.Bridge.SaveCursor | tools/strikezone_quant_bridge.py:283-284 | Saves the place reached in what was read, not the end of the file as it is by then; saving may fail and then changes nothing |
| LedgerBridge.Bridge.PassLedger | tools/strikezone_quant_bridge.py:271-284 | With others appending between any two effects: a pass that saves has posted exactly the rows of the complete lines past the cursor in what it read, once, in order, and saved the end of those lines, leaving later ones; one that fails has posted a prefix of them and saved nothing |
| LedgerBridge.Bridge.RunPass | tools/strikezone_quant_bridge.py:263-284 | The same for both ledgers: no pass moves a cursor back, and one that succeeds has settled every line that was complete when it began |
| LedgerBridge.Bridge.AnyRun | tools/strikezone_quant_bridge.py:263-313 | Over any run of appends, lost state files and passes that fail anywhere, each cursor is 0 or just past a newline, what the saving passes posted since the state was last lost is exactly the rows before it, once and in order, and it moves back only when the state is lost |
| EntryFeatures.ToleranceMs | libs/tradesync_core/tradesync_core/entry_features.py:49-70 | Refused exactly when neither setting is a positive number; otherwise not negative |
| EntryFeatures.ToleranceAlone | libs/tradesync_core/tradesync_core/entry_features.py:49-52 | One setting alone tolerates itself in whole milliseconds |
| EntryFeatures.ToleranceIsSum | libs/tradesync_core/tradesync_core/entry_features.py:55-70 | Two settings tolerate as long as both together |
| EntryFeatures.ToleranceGrows | libs/tradesync_core/tradesync_core/entry_features.py:55-70 | The tolerance grows with each setting, strictly by a millisecond more |
| EntryFeatures.NewestIsFound | libs/tradesync_core/tradesync_core/entry_features.py:84-98 | The scan finds the newest sample observed by entry, the first of equals, and nothing exactly when there is none |
| EntryFeatures.ReadingAtEntry | libs/tradesync_core/tradesync_core/entry_features.py:73-109 | The reading is that sample while within the tolerance, stale when older and missing when there is none; points that are not numbers are passed over |
| FeatureStatistics.ZScoreFormed | libs/tradesync_core/tradesync_core/feature_statistics.py:64-97 | There is a score exactly for two or more values that are not all the same, under a known method: the fallback from the robust method never fails |
| FeatureStatistics.ZScoreMoves | libs/tradesync_core/tradesync_core/feature_statistics.py:64-97 | Moving the history and the value by the same amount changes no score, the choice of method included |
| FeatureStatistics.ZScoreGrows | libs/tradesync_core/tradesync_core/feature_statistics.py:64-97 | A larger value has a larger score against the same history |
| FeatureStatistics.ZScoreScales | libs/tradesync_core/tradesync_core/feature_statistics.py:64-97 | Measuring the history and the value in another unit changes no score |
| FeatureStatistics.MedianOfSorted | libs/tradesync_core/tradesync_core/feature_statistics.py:49-50 | The median is the middle one of the values in any ascending arrangement, or halfway between the middle two |
| FeatureStatistics.MedianHalves | libs/tradesync_core/tradesync_core/feature_statistics.py:49-50 | At least half of the values are not above the median and at least half are not below it |
| FeatureStatistics.RobustScoreIs | libs/tradesync_core/tradesync_core/feature_statistics.py:49-61 | The robust score counts in 1.4826 median deviations from the median |
| FeatureStatistics.OrdinaryScoreIs | libs/tradesync_core/tradesync_core/feature_statistics.py:25-35 | The ordinary score counts in sample standard deviations from the mean |
| PositioningReadings.AtEntry | tools/positioning/readings.py:46-52 | Over its bisected slice of the sorted store the rule gives what it gives over every point in the order stored, ties included |
| PositioningReadings.BeforeIsLatest | tools/positioning/readings.py:55-58 | A z-score history is the newest samples strictly before the value, as many as asked for or all there are |
| PositioningReadings.SignedReadings | tools/positioning/readings.py:85-126 | The memoised loop gives each reading its number, a reading that cannot be formed being absent; under distinct ids the map says for each reading what its kind means |
| PositioningReadings.SignedSays | tools/positioning/readings.py:55-126 | Kind by kind: a raw reading is the value; a change c of a value from the earliest sample of the four hours satisfies base (100 + c) = 100 value, is positive exactly when the value rose, and is there exactly when that sample is positive and three and a half hours old; a price product is there exactly when both are and has the sign of their product; a score is taken against the newest samples strictly before |
| PositioningReadings.NoHindsight | tools/positioning/readings.py:85-126 | Two stores that agree on what was observed by entry give the same readings, when no recorded value is stamped later than the first millisecond after entry |
| PositioningReadings.KnownAtEntryExactly | tools/positioning/readings.py:55-126 | For any inputs and reading: whatever the stores observe after entry the reading is the same, exactly unless it is of a recorded value that is a z-score stamped later than the first millisecond after entry, or a change that no sample known by entry and some later one could be the base of |
| PositioningReadings.AllKnownAtEntryExactly | tools/positioning/readings.py:85-126 | So for all the readings of an entry together, when their ids are distinct |
| PositioningReadings.ProxyNeverEarly | tools/positioning/readings.py:26-32 | A sample known only to the second is read only when that whole second was over by entry |
| FeatureWeights.WeightedMean | libs/tradesync_core/tradesync_core/feature_weights.py:82-94 | The loop gives the weighted mean, and nothing exactly when nothing carries weight |
| FeatureWeights.MeanWithinScores | libs/tradesync_core/tradesync_core/feature_weights.py:82-94 | The mean lies between the least and the greatest score, whatever the weights |
| FeatureWeights.ProportionsMatter | libs/tradesync_core/tradesync_core/feature_weights.py:82-94 | Multiplying every weight by the same factor changes nothing |
| FeatureWeights.ReweightedBlocks | libs/tradesync_core/tradesync_core/decision_replay.py:84-96 | A block is rescored by the weighted mean of its readings exactly when one of them is re-weighted and something carries weight; every other block keeps its recorded score |
| FeatureWeights.ReweightedDirectional | libs/tradesync_core/tradesync_core/decision_replay.py:98-112 | The contributors with numbers are kept in order with their multipliers, and their weighted mean is the new score |
| FeatureWeights.EntriesCarryWeights | libs/tradesync_core/tradesync_core/decision_replay.py:103-110 | The entries are the contributors with numbers, each once and in order, read with their own score and quality and the multiplier the rulebook writes down, or 1 where it writes none |
| FeatureWeights.ItemCarriesWeight | libs/tradesync_core/tradesync_core/decision_replay.py:86-91 | A reading of a block weighs what the rulebook says too |
| FeatureWeights.HeavierMovesMean | libs/tradesync_core/tradesync_core/feature_weights.py:82-94 | A reading with more quality times weight moves the mean strictly further towards its own score, and one with none does not move it |
| FeatureWeights.PlainAverage | libs/tradesync_core/tradesync_core/feature_weights.py:82-94 | Where all weigh the same, the mean is the plain average of the scores |
| BlockEvaluation.EvaluateBlocks | libs/tradesync_core/tradesync_core/block_evaluation.py:59-167 | Refused exactly for an unknown block, a value out of range or an empty flag; otherwise the blend, the coverage, the missing blocks and the multiplier of the active flags |
| BlockEvaluation.BlendInRange | libs/tradesync_core/tradesync_core/block_evaluation.py:105-118 | The blend stays in [-1, 1] and the coverage is never negative |
| BlockEvaluation.UncoveredBlockMovesNothing | libs/tradesync_core/tradesync_core/block_evaluation.py:97-108 | A block of quality zero moves neither the score nor the coverage |
| BlockEvaluation.FullCoverage | libs/tradesync_core/tradesync_core/block_evaluation.py:97-118 | With every block scored in full quality the coverage is the whole weight |
| BlockEvaluation.CoverageIsPresentWeight | libs/tradesync_core/tradesync_core/block_evaluation.py:97-118 | In full quality the coverage is the weight of the blocks that were scored |
| BlockEvaluation.WeightlessMovesNothing | libs/tradesync_core/tradesync_core/block_evaluation.py:97-118 | A block without weight moves neither the score nor the coverage |
| BlockEvaluation.ScaledWeights | libs/tradesync_core/tradesync_core/block_evaluation.py:97-118 | Multiplying all weights by the same factor leaves the score and scales the coverage |
| BlockEvaluation.HeavierMovesFurther | libs/tradesync_core/tradesync_core/block_evaluation.py:97-118 | A larger weight moves the score strictly towards that of its block, and leaves it alone exactly where it agrees with the others |
| BlockEvaluation.MostConservativeWins | libs/tradesync_core/tradesync_core/block_evaluation.py:139-154 | The multiplier stays within the limits, is at most every active cap (or the floor), and is the base, the floor or one of those caps |
| BlockEvaluation.MoreFlagsNeverRaise | libs/tradesync_core/tradesync_core/block_evaluation.py:139-154 | No flag added ever raises the multiplier, in whatever order |
| BlockEvaluation.PoorCoverageCaps | libs/tradesync_core/tradesync_core/block_evaluation.py:131-137 | No or low coverage caps the risk by its own flag whatever flags were given |
| DecisionContributions.DirectionalSharesAddUp | libs/tradesync_core/tradesync_core/decision_contributions.py:72-96 | The directional shares sum to the weighted mean of the readings they divide, and to nothing when nothing carries weight |
| DecisionContributions.ReplayedSharesAddUp | libs/tradesync_core/tradesync_core/decision_replay.py:98-112 | After a replay whose contributors all have names the shares sum to the score the replay recomputed |
| DecisionContributions.ReplayedSharesExactly | libs/tradesync_core/tradesync_core/decision_replay.py:98-112 | After any replay they do exactly when the contributors without a name leave the mean of the others where it is: their pull times the others' mass is the others' pull times their mass, where both masses count |
| DecisionContributions.UnnamedHasNoShare | libs/tradesync_core/tradesync_core/decision_contributions.py:81-82 | The condition is needed: a lone contributor without a name is the whole recomputed score and has no share |
| DecisionContributions.SuitabilityFeatures | libs/tradesync_core/tradesync_core/decision_contributions.py:99-128 | Each admitted feature that set no side gets its own part of its block, and no other feature does |
| DecisionContributions.SuitedExactly | libs/tradesync_core/tradesync_core/decision_contributions.py:99-128 | Exactly the admitted features that set no side get a share, each once and in order, with their own reading and their part of their block |
| DecisionContributions.DirectedExactly | libs/tradesync_core/tradesync_core/decision_contributions.py:68-96 | Exactly the readable contributors get a directional share, each once and in order, with their own reading, the block they were last admitted for, and their part of the mean |
| DecisionContributions.AdmittedExactly | libs/tradesync_core/tradesync_core/decision_contributions.py:155-168 | Exactly the readable features are admitted, each once and in order, with their own reading, in the block they name or in "unknown" when they name none |
| DecisionContributions.BlockContributions | libs/tradesync_core/tradesync_core/decision_contributions.py:131-150 | Each block with a stance gets the pull of its directional members, or its part of the blend when it has none |
| DecisionContributions.FeatureSharesAddUp | libs/tradesync_core/tradesync_core/decision_contributions.py:99-150 | In a block that set no side and whose score is the quality-weighted mean of its features, their shares sum to the block's share |
| DecisionContributions.BlockSharesAddUp | libs/tradesync_core/tradesync_core/decision_contributions.py:131-150 | With no directional feature the block shares sum to the weighted score the blocks were blended into |
| DecisionContributions.MembersPull | libs/tradesync_core/tradesync_core/decision_contributions.py:143-145 | A block's directional pull is the sum of what its own features moved the directional score by |
| DecisionContributions.DirectionalPartsAddUp | libs/tradesync_core/tradesync_core/decision_contributions.py:131-150 | The directional blocks' pulls add up to what the directional features in blocks with a stance move |
| DecisionContributions.ContributionsFromDecision | libs/tradesync_core/tradesync_core/decision_contributions.py:153-185 | The whole split of a decision: the directional features sum to the directional score, and so do the directional blocks when each of those features is in a block with a stance; the blocks of an evaluation sum to its blend when nothing set a side; other features sum to their blocks |

## Left out

- HTTP, PostgreSQL, WSL and the file system beyond the files named above: an effect happens, fails, or happens and its answer is lost.
- The server's answers of 503, and a claim that is neither granted nor refused: they reach the host as the failure of a request.
- Time stamps, log lines and result texts of the kill switch, and the redaction of a report's text.
- Two host processes at once, and two bridges on one state file: the source starts one of each.
- `backoff`: a single expression.
- The journal's lock, threads, and Windows, where a directory is never synced.
- Decimal overflow and underflow at the ends of the exponent range, NaN and infinity, and number texts with an exponent, underscores or spaces: `order_wire` refuses every such text either way, because it does not print as itself.
- The kinds of Python type error are one error in the order builders; `exchange_body`, signing and hashing are not modelled.
- Rounding error of floats, and the standard deviation itself: volatility is compared as variance, which needs a lookback of at least two, as the division by `lookback - 1` does.
- `forward_returns`, `quantile` and `summarize` of the horizon statistics, and the sentences they build.
- `relative_lean` and the display strings of the horizon weights; days are whole numbers and the state `None` is a day that is not usable.
- Log loss, effective windows, Wilson intervals and paired differences of forecast scores: their statistics are in modules that are not part of this model.
- `logit` and `sigmoid`: the combined log odds are modelled, not the probability they map to.
- LedgerBridge.ParsesLineByLine: newline is the only separator of the concrete parser, while `splitlines` also splits at other characters; the bridge itself is proved for any parser that reads whole lines one by one, which includes that one.
- A ledger that was replaced by a file that is not shorter than the cursor is read from the cursor on, in the code as in the model; `Bridge.AnyRun` is about ledgers that are only appended to, as they are documented to be.
- The bridge's documents, research evidence, remembered ids and chart copies.
- A state file lost in the middle of a pass: the pass holds both cursors and writes them back.
- PositioningReadings.AtEntry: time stamps are whole milliseconds; the code sorts raw stamps and scans them truncated, so fractional stamps within one millisecond are not modelled.
- Volatility over closes that are not positive, where the rolling figure counts a zero and the daily one drops the day.
- EntryFeatures.ToleranceMs: a setting that is not a number is absent; booleans are not told apart from other non-numbers.
- `at_entry` and `signed_readings` on points whose value is not a number, and a reading kind the declaration does not know; a feature that is read from a store without a specification, which raises.
- DecisionContributions.BlockContributions: the blocks come out in the order they are held, not sorted by name, and the features are not sorted by the size of their contribution; every sum is independent of that order.
- `case_from_stored_evidence`, `replay_case` and the recorded policy of a replay: single readings of stored fields, or modules that are not part of this model.
- `bounded_z_score`: tanh and its rounding at the ends.
- Rulebook validation and the field-by-field validators elsewhere: each property is the reading of one branch.
