# Verified model of the trade simulators, the contour supervisor and the tape writer

The repository scores trading signals with several independent simulators: loops over ticks or candles that keep
stops, peaks, streaks, slots and balances in mutable variables.  Around them a control center supervises child
processes, and a recorder writes the tape the simulators read.  This project models those loops and classes in
their own imperative form, proves each one against a declarative reading, and proves properties that span them.

Prices, R units and money are exact reals; times are integer milliseconds.  A valid candle has
`0 < low <= open, close <= high`.  A `None` stands for Python's `None`, and for an exception where the row says so.

| module | models |
|---|---|
| `TapeReplay`, `TapeTheorems`, `TapePrices` | replay of one signal over the tape, all exit hypotheses at once |
| `PumpWalk`, `PumpPrices`, `PumpCandidates`, `PumpPortfolio`, `PumpTheorems`, `PumpReport`, `PumpSolvency`, `PumpRuin`, `Drawdown`, `Sorting` | pump candidates, the two-slot portfolio, when it can be ruined, drawdown |
| `SignalEngine`, `SignalTheorems`, `SignalReadings` | the backtest's signal engine: regimes, vetoes, levels |
| `Outcome`, `OutcomePrices`, `BalanceLoop`, `BalanceTimes` | outcome walk, excursion labeler, dollar results, one-position-per-symbol balance |
| `ContourProtocol`, `ContourTheorems`, `ShutdownProtocol`, `ControlCenter` | a supervised process and the shutdown paths, under every interleaving |
| `TapeWriter`, `TapeWriterTheorems` | the per-symbol daily file writer over a model disk |
| `Market` | shared vocabulary |

How the parts are tied together:

- A loop that changes variables is a method; its `ensures` equates the result with a specification function or
  predicate (`Explains`, `WalkExit`, `OutcomeOf`, `Settle`, `Expected`, ...), and the theorems are about those.
- Whatever a method shares with its specification is read back into the inputs: `TapePrices`, `PumpPrices`,
  `SignalReadings`, `OutcomePrices`, `BalanceTimes` and `PumpReport` state results in rows, candles, readings, times
  and prices, with numbers for constants and every clause for both sides of the market.
- A class (`PumpSimulation`, `TradeRecord`, `ManagedContour`, `ControlCenter`, `TapeWriter`) has a view as a value,
  and each method states the view it leaves as a transition of the view it found.
- The two protocols are state machines over single reads and writes of shared fields. A history is any interleaving
  in which the one Tk thread finishes a task before it takes up the next; the classes' methods are proved to be runs
  of the same actions without interruption. Each slot of the shutdown protocol holds a whole contour, so what a stop
  sequence learns is what the contour's own `stop()` answered.

## Where the code and the obvious claim part

Each has a proof of exactly when the claim holds, or a concrete input that breaks it.

- The tape replay's two ways of judging a tracked hold agree on a time-ordered tape if and only if the stop is not
  touched by a later trade of the very millisecond that touched the target
  (`TapeTheorems.OfflineMeetsOnline`).  An untracked hold is silently extended to the next horizon
  (`EffectiveHold`, `TouchAfterHoldWitness`).
- Break-even protection arms at or after the stop exactly if the peak was short of the threshold at the stop and a
  later tick with an earlier timestamp finds it reached (`ArmsAfterStopExactly`); in that case alone can an armed
  hypothesis end at a full stop (`ArmedFullStopExactly`).  On a time-ordered tape it never happens.
- Above a peak of 1.5R the trailing stop overtakes the step stop, until the 2R lock (`StopsOrdered`); no open
  variant gets there, because the 1.5R target exits first, so the 2R lock is never an exit (`VariantPayoff`).
- With a zero hold the candidate walk reports a time exit one bar before its own entry, while the sweep skips the
  signal (`PumpWalk.WalksAgree`).
- The one-pass drawdown is the worst pair of points exactly for the curves whose drops to negative points are
  outdone by a drop from a running peak (`Drawdown.OnePassIsWorstPairExactly`), so for every curve that never goes
  negative.  The failing input (`NegativeCurveWitness`) is one of the function alone, not a curve of the simulator.
- A position is sized on an older balance than it settles on, so the account can be ruined, although no trade costs
  more than 0.63% of what it is sized on: exactly when more than 583 other accepted trades may exit while one is held
  (`PumpRuin.NeverRuinedExactly`; `ChainRuins` is the run).
- The favourable excursion of a time exit also counts the first candle past the hold, and that of an open trade is
  reported as zero (`Outcome.MfeInsideHoldExactly`).
- With the stop on the wrong side of the entry a trade is stopped at once but its adverse excursion is recorded as
  zero (`Outcome.MisplacedStopWitness`).
- `trending_no_fvg`, `trending_4h_block` and `trending_di_spread` can never be the reported reason
  (`SignalTheorems.ReportedReasons`).  The R/R check is skipped when the second target is exactly zero, and then
  alone can a swing target be nearer than a third of R (`EntryLevels`, `RrCheckSkippedWitness`).
- An exit that a stop has to do with can be reported as unexpected.  After a stop has begun its generation can
  still be reported exactly if the Tk thread was past the first read of a poll, or between the spawn and the commit
  of a start (`BegunStopExactly`).  A stop looks the process up anew each time it acts, so one that is overtaken by
  the next start acts on the new process (`CarriedOverStopWitness`).  No such report is ever made exactly if stops
  begin outside those stages and no process is started over a stop that may still check, mark, request or signal
  (`DisciplineExactly`); the source enforces neither.
- A stop whose deadline passes reports a process that is still alive exactly if none was started meanwhile
  (`TimedOutExactly`); one that fails in its request, identity check or signal says nothing either way
  (`FailedStopOfLiveGenerationWitness`, `FailedStopOfDeadGenerationWitness`).
- The hard-fail sequence is never entered again after it has failed (`HardFailRunsOnce`).  When it has released the
  instance lock, exactly the contours outside its profile and those started behind its capture can be running
  (`SurvivorsExactly`).
- A file left without its header stays so: no event changes whether an existing file is well formed
  (`FilesKeepForm`), while every file a run creates is (`FilesStayHealthy`).
- Conservation of the tape holds for dates in any order (`NothingIsLost`); a plain file of a finished day stays
  behind only where a compressed one exists already (`RotateClosesDay`).

## Model

| member | source | states |
|---|---|---|
| TapeReplay.IterTape | scripts/analysis/verify_signals_from_tape.py:66-99 | the reader passes on exactly the wanted rows, in tape order |
| TapeReplay.RecordTouches | scripts/analysis/verify_signals_from_tape.py:178-181 | the two touch times are those of the first touching ticks |
| TapeReplay.OfferBreakEven | scripts/analysis/verify_signals_from_tape.py:183-203 | armed and exited exactly when the break-even hypothesis first fires, never at a tick up to whose time the stop is known touched |
| TapeReplay.OfferSingle | scripts/analysis/verify_signals_from_tape.py:205-210 | the fixed 1.5R exit is that of the first tick at 1.5R or at -1R |
| TapeReplay.OfferTrail | scripts/analysis/verify_signals_from_tape.py:212-220 | the ratcheted trailing stop is a function of the peak alone, and the exit is the first tick at the target or at that stop |
| TapeReplay.OfferStep | scripts/analysis/verify_signals_from_tape.py:222-233 | the same for the stepped locks at 0, 0.5 and 1.5 |
| TapeReplay.FillHorizons | scripts/analysis/verify_signals_from_tape.py:235-246 | each horizon is closed by its first late, target or stop tick, in that order of precedence |
| TapeReplay.WalkTicks | scripts/analysis/verify_signals_from_tape.py:163-248 | one pass resolves every hypothesis as its own machine run alone over the path would |
| TapeReplay.CloseHorizons | scripts/analysis/verify_signals_from_tape.py:250-258 | an open horizon ends incomplete at the last tick |
| TapeReplay.ResolveOriginal | scripts/analysis/verify_signals_from_tape.py:260-284 | the original outcome is the earliest touch within the hold, the stop winning a tie, else the closest horizon's verdict |
| TapeReplay.ClosestHorizon | scripts/analysis/verify_signals_from_tape.py:281 | the fallback is the smallest tracked horizon covering the hold, if any covers it |
| TapeReplay.SimulateSignal | scripts/analysis/verify_signals_from_tape.py:116-339 | nothing exactly for a zero stop distance and a division by zero exactly for a zero entry price with a stop elsewhere; otherwise every field of the result is explained by the path alone |
| TapeTheorems.FirstFireIsFirst | scripts/analysis/verify_signals_from_tape.py:163-246 | a hypothesis resolves at the first tick that fires it and at no other |
| TapeTheorems.PeakIsBest | scripts/analysis/verify_signals_from_tape.py:173-174 | the favourable excursion is the best R on the path, or zero |
| TapeTheorems.TroughIsWorst | scripts/analysis/verify_signals_from_tape.py:175-176 | the adverse excursion is the worst R on the path, or zero |
| TapeTheorems.TouchesMatchExcursions | scripts/analysis/verify_signals_from_tape.py:173-181 | a touch time exists if and only if the excursion reached that level |
| TapeTheorems.WindowKeepsOrder | scripts/analysis/verify_signals_from_tape.py:66-99 | a tape in time order gives a window in time order that holds every wanted row and no other |
| TapeTheorems.OpenMeansBelowTarget | scripts/analysis/verify_signals_from_tape.py:205-233 | while a variant is open every tick lay strictly between its stop and 1.5R |
| TapeTheorems.StopsOrdered | scripts/analysis/verify_signals_from_tape.py:212-233 | step stop at or above trail stop at or above -1R, for exactly which peaks, and both at most 0.5R while the peak is under 1.5R |
| TapeTheorems.StopsRatchet | scripts/analysis/verify_signals_from_tape.py:214-229 | a stop never moves down along the path |
| TapeTheorems.TrailNoLaterThanSingle | scripts/analysis/verify_signals_from_tape.py:205-220 | on every path the trail exits no later than the fixed target |
| TapeTheorems.StepNoLaterThanTrail | scripts/analysis/verify_signals_from_tape.py:212-233 | on every path the step locks exit no later than the trail |
| TapeTheorems.VariantPayoff | scripts/analysis/verify_signals_from_tape.py:205-233 | what each variant can pay; 1.5R if and only if the exit tick reached it; the 2R lock never pays |
| TapeTheorems.VariantsNested | scripts/analysis/verify_signals_from_tape.py:205-233 | exits ordered step, trail, single; a target of a tighter variant is the looser ones' at the same tick |
| TapeTheorems.VariantResultsBounded | scripts/analysis/verify_signals_from_tape.py:297-310 | the promised walk guarantee: all three final results lie in [-1, 1.5] |
| TapeTheorems.LongerHorizonSameTouch | scripts/analysis/verify_signals_from_tape.py:235-246 | a target or stop verdict is the same at every longer horizon, for any tick order |
| TapeTheorems.OfflineMeetsOnline | scripts/analysis/verify_signals_from_tape.py:235-284 | on a time-ordered tape the verdict from touch times equals the tick-by-tick one if and only if there is no same-millisecond reversal |
| TapeTheorems.OfflineMeetsOnlineStrict | scripts/analysis/verify_signals_from_tape.py:235-284 | with strictly increasing timestamps the two always agree |
| TapeTheorems.EffectiveHold | scripts/analysis/verify_signals_from_tape.py:260-284 | a touch is reported if and only if it comes within the larger of the hold and its closest horizon |
| TapeTheorems.TouchAfterHoldWitness | scripts/analysis/verify_signals_from_tape.py:277-284 | a 200-minute hold reports a target touched after 250 minutes |
| TapeTheorems.HigherThresholdArmsLater | scripts/analysis/verify_signals_from_tape.py:187-199 | 1R protection never arms before 0.5R protection |
| TapeTheorems.ArmedCleanly | scripts/analysis/verify_signals_from_tape.py:183-189 | on any tape, the stop is untouched up to the arming tick if and only if the arming is not late, and then it is the first tick to reach the threshold |
| TapeTheorems.ArmedNeverStopsOut | scripts/analysis/verify_signals_from_tape.py:183-203 | on any tape, unless the arming is late, an armed hypothesis ends at entry, at the target, or on a path that touched neither level; never at -1R |
| TapeTheorems.ArmsAfterStopExactly | scripts/analysis/verify_signals_from_tape.py:186-189 | on any tape, protection arms at or after the first touch of the stop if and only if the arming is late |
| TapeTheorems.NoExitMeansBetween | scripts/analysis/verify_signals_from_tape.py:190-203 | armed protection stays unresolved if and only if every later tick lies strictly between entry and target |
| TapeTheorems.OfflineStopExactly | scripts/analysis/verify_signals_from_tape.py:260-284 | the original verdict is a full stop or worse if and only if the stop is touched within the hold and no later than a target within it, or neither is and the closest horizon ends at or below -1R |
| TapeTheorems.ArmedFullStopExactly | scripts/analysis/verify_signals_from_tape.py:183-295 | an armed hypothesis ends at a full stop or worse, on any tape, exactly under the same reading of the touches and when it armed late and never exited |
| TapeTheorems.ArmedAfterStopWitness | scripts/analysis/verify_signals_from_tape.py:186-189 | out of time order it can arm after the stop |
| TapeTheorems.ReplayGuarantees | scripts/analysis/verify_signals_from_tape.py:116-339 | for a time-ordered tape: agreement of the two verdicts, verdicts kept by longer horizons, armed results above -1R |
| TapePrices.RelevantRowsExact | scripts/analysis/verify_signals_from_tape.py:66-99 | the rows a replay sees, by number: those of the signal's swap from its entry to the longest horizon, in tape order |
| TapePrices.PathInPrices | scripts/analysis/verify_signals_from_tape.py:150-171 | the path has one point for each of them: its time, and how far its price has gone the signal's way in stop distances, up for a buy, down for a sell |
| TapePrices.TouchTimesInPrices | scripts/analysis/verify_signals_from_tape.py:178-181 | with the levels on their own sides, the touch times are those of the first row at or past the target price and of the first at or past the stop price |
| TapePrices.ExcursionsInPrices | scripts/analysis/verify_signals_from_tape.py:173-176 | the two excursions times the stop distance are the worst and best gain over those rows, or zero, and the ticks are counted |
| TapePrices.ReportedDistances | scripts/analysis/verify_signals_from_tape.py:323-324 | stop distance in percent of the entry, target in stop distances |
| TapePrices.SingleReading | scripts/analysis/verify_signals_from_tape.py:205-210 | the fixed variant leaves at the first tick not strictly between -1R and 1.5R, else ends at the last tick |
| TapePrices.TrailReading | scripts/analysis/verify_signals_from_tape.py:212-220 | the trailing variant leaves at 1.5R or one R behind the best tick so far once that is 1R |
| TapePrices.StepReading | scripts/analysis/verify_signals_from_tape.py:222-233 | the stepped variant leaves at 1.5R or at its lock: the entry from 0.5R on, 0.5R from 1R on, 1.5R from 2R on |
| TapePrices.ProtectedReading | scripts/analysis/verify_signals_from_tape.py:183-203 | break-even from 0.5R and from 1R, unless the stop was touched by that time: out at the target or back at the entry, else the signal's own result |
| TapePrices.HorizonReading | scripts/analysis/verify_signals_from_tape.py:235-258 | a horizon closes at the first tick past it or at a level, past it counting first; otherwise incomplete at the last tick |
| TapePrices.HorizonsReported | scripts/analysis/verify_signals_from_tape.py:36 | one verdict for each of the five horizons, by their minutes |
| TapePrices.OriginalReading | scripts/analysis/verify_signals_from_tape.py:260-284 | the original outcome from the two touch times and the hold, 300 minutes when missing or zero |
| PumpWalk.ComputeLeverage | scripts/archive/bt_pump_equity.py:96-100 | the largest leverage of 1 to 3 whose doubled daily range stays within 100%, or 1 |
| PumpWalk.Compute24hVolPct | scripts/archive/bt_pump_equity.py:84-93 | range of the last 1440 bars in percent of its low, zero for no bars or a non-positive low |
| PumpWalk.BuildCandidate | scripts/archive/bt_pump_equity.py:142-220 | a trade unless the entry bar is missing or its open not positive; exit at the first touching bar, the stop winning a tie, else the last close |
| PumpWalk.SimulateOneSignal | scripts/archive/bt_pump_tp_sl.py:37-72 | the sweep's walk finds the same exit; the ValueError for a missing entry or empty window, the division by zero for an untouched zero entry price |
| PumpWalk.FirstHitIsFirst | scripts/archive/bt_pump_equity.py:159-201 | the exit bar touches a level and no bar before it does |
| PumpWalk.LongerHoldSameHit | scripts/archive/bt_pump_equity.py:154-201 | enlarging the hold never changes a TP or SL verdict, its bar or its price |
| PumpWalk.WalksAgree | scripts/archive/bt_pump_tp_sl.py:37-72 | at 3%/2% on pumps both walks give one outcome, exit bar and gross return; exactly when both trade; the zero-hold difference |
| PumpWalk.GrossBounds | scripts/archive/bt_pump_equity.py:203 | gross return in [-2, 3], at -2 if and only if SL and at 3 if and only if TP |
| PumpWalk.ExitNotBeforeEntry | scripts/archive/bt_pump_equity.py:154-201 | in a time-ordered frame no candidate exits before its entry |
| PumpPrices.WalkInPrices | scripts/archive/bt_pump_equity.py:142-201 | the one bar that decides a walk and its price, in candle extremes, for longs and shorts |
| PumpPrices.OneBarDecides | scripts/archive/bt_pump_equity.py:154-201 | outcome and bar are exactly those of the bar at which the stop, the target or the end of the hold comes first |
| PumpPrices.CandidateInPrices | scripts/archive/bt_pump_equity.py:136-220 | a short is SL if and only if a bar of its hold is 2% above the entry and none before is that or 3% below, TP and TIME likewise, a long mirrored; exit time, price and return follow from that bar |
| PumpPrices.VolatilityInPrices | scripts/archive/bt_pump_equity.py:84-93 | the range of the 1440 bars before the signal in percent of its lowest low, zero without bars or with a low that is not positive |
| PumpPrices.SweepInPrices | scripts/archive/bt_pump_tp_sl.py:37-72 | the sweep's result from the same bar for any two percentages, fee and minutes included |
| PumpCandidates.BuildFromSignalRows | scripts/archive/bt_pump_equity.py:227-335 | the list is the rows' trades sorted by entry and symbol |
| PumpCandidates.CandidatesInEntryOrder | scripts/archive/bt_pump_equity.py:334 | from time-ordered frames the list is in entry order and no trade exits before its entry |
| PumpCandidates.RowOrderIrrelevant | scripts/archive/bt_pump_equity.py:223 | rows in any order give the same list, so both builders feed the simulator the same run |
| PumpCandidates.ListInOrder | scripts/archive/bt_pump_equity.py:334 | the list is ordered by entry time, and by symbol at equal times |
| PumpCandidates.ListComplete | scripts/archive/bt_pump_equity.py:227-335 | one trade for each row with a positive opening price after it, pumps and dumps alike, and no other |
| PumpCandidates.BuiltRun | scripts/archive/bt_pump_equity.py:227-435 | candles to finished run: two live trades at most, exits in time order, every trade a fraction between -0.63% and +0.87% of the balance at its entry |
| PumpCandidates.BuiltRunStaysPositive | scripts/archive/bt_pump_equity.py:227-435 | the balance stays positive for trades built from candles, with nothing assumed of them but that at most 583 others exit during an accepted one |
| PumpPortfolio.PumpSimulation.constructor | scripts/archive/bt_pump_equity.py:350-358 | the fresh simulator |
| PumpPortfolio.PumpSimulation.SettlePosition | scripts/archive/bt_pump_equity.py:371-386 | one settlement books one position and moves the streak |
| PumpPortfolio.PumpSimulation.NoteOutcome | scripts/archive/bt_pump_equity.py:380-386 | a third stop in a row arms a skip of five and restarts the streak; anything else clears it |
| PumpPortfolio.PumpSimulation.SettlePositions | scripts/archive/bt_pump_equity.py:360-398 | exactly the due positions are booked, in exit order, and the others stay open |
| PumpPortfolio.PumpSimulation.Consider | scripts/archive/bt_pump_equity.py:400-413 | one candidate: settle, then cool down, turn away or accept |
| PumpPortfolio.PumpSimulation.Report | scripts/archive/bt_pump_equity.py:417-435 | every reported figure from the ledger; no profit factor stands for infinity |
| PumpPortfolio.RunSimulation | scripts/archive/bt_pump_equity.py:349-435 | the report describes the completed ledger of the one run the candidates have |
| PumpPortfolio.RunIsUnique | scripts/archive/bt_pump_equity.py:400-413 | a candidate list has exactly one run: fresh book, then one step per candidate |
| PumpPortfolio.LedgerAt | scripts/archive/bt_pump_equity.py:371-386 | at every step: balance is 100 plus profits less losses, one curve point per settlement, counts match, nothing lost |
| PumpPortfolio.LedgerOfRun | scripts/archive/bt_pump_equity.py:400-415 | at the end the same, nothing open, every accepted trade settled exactly once |
| PumpPortfolio.ProfitFactorMeansGrowth | scripts/archive/bt_pump_equity.py:418-430 | with a loss on record, the profit factor exceeds 1 if and only if the final balance exceeds 100 |
| PumpPortfolio.RatesAreShares | scripts/archive/bt_pump_equity.py:417-435 | trades reported equal trades accepted, and the three outcome rates add up to 100% |
| PumpTheorems.GateAt | scripts/archive/bt_pump_equity.py:380-413 | never more than two open, streak and open positions at most one while skipping, skips done plus pending are five per arming |
| PumpTheorems.DecisionsRecorded | scripts/archive/bt_pump_equity.py:400-413 | the recorded decisions are those the gate and the slots dictate |
| PumpTheorems.CooldownIsExact | scripts/archive/bt_pump_equity.py:380-404 | an arming skips exactly the next five candidates, or all that remain, is not repeated meanwhile, and the sixth is not skipped |
| PumpTheorems.SkipHasCause | scripts/archive/bt_pump_equity.py:380-404 | every skipped candidate goes back to an arming at most five candidates earlier |
| PumpTheorems.StreakIsTrailingStops | scripts/archive/bt_pump_equity.py:380-386 | the streak is the number of stops settled in a row, modulo three |
| PumpTheorems.BookAtEntry | scripts/archive/bt_pump_equity.py:400-413 | at a candidate's entry the open list is the accepted trades not yet exited and the balance the result of those that have |
| PumpTheorems.SlotsAndSizing | scripts/archive/bt_pump_equity.py:406-413 | at every instant at most two accepted trades are live, and each is sized on exactly the trades closed by its entry |
| PumpTheorems.FullMeansTwoLive | scripts/archive/bt_pump_equity.py:402-407 | a candidate is turned away for lack of a slot if and only if it is not skipped and two trades are live |
| PumpTheorems.SettledInTimeOrder | scripts/archive/bt_pump_equity.py:364-371 | across all settlements of a run exits are booked in nondecreasing time |
| PumpTheorems.PositionBounded | scripts/archive/bt_pump_equity.py:410-413 | a position's result is a fixed fraction of any balance, between -0.63% and +0.87%, negative for SL and positive for TP |
| PumpTheorems.RunIsSized | scripts/archive/bt_pump_equity.py:400-413 | every settlement's result is the account fraction of its trade times a balance the curve has had by then |
| PumpSolvency.RunFallsSlowly | scripts/archive/bt_pump_equity.py:348-417 | with a given number of other accepted trades exiting while one is held, no settlement costs more than a share of the balance, found from that number alone |
| PumpSolvency.RunStaysPositive | scripts/archive/bt_pump_equity.py:348-417 | with at most 583 others exiting during any accepted trade the balance stays positive and no settlement takes more than half of it; with at most 39 none costs more than 0.81% |
| PumpRuin.ChainRuins | scripts/archive/bt_pump_equity.py:348-417 | a run with at most 584 others exiting during any accepted trade whose balance is lost |
| PumpRuin.NeverRuinedExactly | scripts/archive/bt_pump_equity.py:348-417 | over all lists of trades in entry order with the leverage, outcome and return candles can yield, no run loses its balance if and only if at most 583 others may exit during an accepted trade |
| PumpTheorems.RunDrawdown | scripts/archive/bt_pump_equity.py:338-346 | the drawdown of a run is the worst pair of its curve if and only if the curve's negative points are outdone |
| PumpReport.OutcomesReported | scripts/archive/bt_pump_equity.py:417-435 | each rate times its trades is a hundred times the trades that ended so; the win rate counts those that hit a level |
| PumpReport.MoneyReported | scripts/archive/bt_pump_equity.py:418-430 | the account is 100 plus every accepted trade's result; profit factor times what was lost is what was won, infinite if and only if nothing was lost |
| PumpReport.SizeReported | scripts/archive/bt_pump_equity.py:410-413 | a trade's result is a tenth of the balance closed by its entry, times leverage, times its return less 0.1% |
| Drawdown.MaxDrawdownPct | scripts/archive/bt_pump_equity.py:338-346 | the worst drop from a running positive peak |
| Drawdown.OnePassIsWorstPair | scripts/archive/bt_pump_equity.py:338-346 | on a non-negative curve it is the worst loss over all pairs of points, and below 100% if the curve is positive |
| Drawdown.OnePassIsWorstPairExactly | scripts/archive/bt_pump_equity.py:338-346 | it is the worst loss over all pairs if and only if every drop to a negative point is outdone by a drop from a running peak |
| Drawdown.NegativeCurveWitness | scripts/archive/bt_pump_equity.py:338-346 | on a curve that goes negative it is not |
| Drawdown.DrawdownInBalances | scripts/archive/bt_pump_equity.py:338-346 | no balance lies more than that percentage below a positive highest balance before it, and one lies exactly that |
| Drawdown.WorstPairInBalances | scripts/archive/bt_pump_equity.py:338-346 | the worst pair in balances: what it loses and that no pair loses more |
| Sorting.SortContents | scripts/archive/bt_pump_equity.py:364-367 | sorting keeps the contents |
| Sorting.SortSorts | scripts/archive/bt_pump_equity.py:364-367 | sorting puts in order |
| Sorting.SortedUnique | scripts/archive/bt_pump_equity.py:334 | contents and order determine the sorted list when the key tells elements apart |
| Sorting.SortKeepsTies | scripts/archive/backtest_simulate.py:2014 | elements that tie keep the order they came in |
| SignalEngine.ClassifyRegime | scripts/archive/backtest_simulate.py:605-636 | detection, demotion on a four-hour conflict, promotion by score |
| SignalEngine.ProposeTrending | scripts/archive/backtest_simulate.py:647-710 | a swing first, a fast trade otherwise, the gap check, the reason for none |
| SignalEngine.ProposeRanging | scripts/archive/backtest_simulate.py:712-757 | the fade proposal and the reason for none |
| SignalEngine.ProposeDrift | scripts/archive/backtest_simulate.py:759-830 | the drift proposal and the reason for none |
| SignalEngine.Propose | scripts/archive/backtest_simulate.py:638-830 | the regime's proposal, with a reason exactly when there is none |
| SignalEngine.VetoDrift | scripts/archive/backtest_simulate.py:832-896 | the six drift vetoes that reassign in place clear the proposal with the first that applies |
| SignalEngine.VetoShared | scripts/archive/backtest_simulate.py:898-934 | four-hour, mode, night, hour and late-move vetoes; an earlier reason is kept |
| SignalEngine.VwapAgrees | scripts/archive/backtest_simulate.py:939-954 | side of VWAP: fade in a range, follow in a drift, free in a trend |
| SignalEngine.VetoSlope | scripts/archive/backtest_simulate.py:956-995 | trend strength, drift-short and slope vetoes |
| SignalEngine.Finish | scripts/archive/backtest_simulate.py:997-1108 | funding, open interest, levels, R/R check, and the result with the first reason |
| SignalEngine.ComputeSignal | scripts/archive/backtest_simulate.py:423-1156 | the in-place chain equals the chain read as first-of-first over the proposal; nothing for an unknown pair or short history |
| SignalTheorems.LevelsStraddleClose | scripts/archive/backtest_simulate.py:1012-1070 | for positive readings the stop lies behind the close, both targets ahead, the first at most one R away |
| SignalTheorems.RrVetoMeans | scripts/archive/backtest_simulate.py:1072-1077 | the R/R block is a second target under 0.8R, when neither price is zero |
| SignalTheorems.EntryLevels | scripts/archive/backtest_simulate.py:1012-1102 | every entry: levels on opposite sides, target at most one R, and at least R/3 if and only if the skipped-check corner is avoided |
| SignalTheorems.RrCheckSkippedWitness | scripts/archive/backtest_simulate.py:1072-1077 | a full reading under the shipped BTC-USDT settings whose entry has a second target of zero and a first target below R/3 |
| SignalTheorems.TrendingReadings | scripts/archive/backtest_simulate.py:388-392 | a trending market has already passed the four-hour checks made again later |
| SignalTheorems.ReportedReasons | scripts/archive/backtest_simulate.py:692-710 | every refusal has a reason and no entry has one; three reasons are never reported; which reasons belong to which market and style |
| SignalTheorems.EntryMeans | scripts/archive/backtest_simulate.py:638-1102 | what any entry says about its market: long only and above VWAP in a drift, with the bias in a trend, hours, funding, open interest |
| SignalTheorems.LooserFiltersKeepEntries | scripts/archive/backtest_simulate.py:832-995 | relaxing any of the filters keeps every entry with the same style, side, regime and levels |
| SignalReadings.RegimeReading | scripts/archive/backtest_simulate.py:605-636 | each of the five regimes if and only if its readings, thresholds as numbers |
| SignalReadings.TrendingReading | scripts/archive/backtest_simulate.py:647-697 | for each side, exactly when a trend proposes a swing and when a fast trade |
| SignalReadings.RangingReading | scripts/archive/backtest_simulate.py:712-740 | exactly when a range proposes a long and when a short |
| SignalReadings.DriftReading | scripts/archive/backtest_simulate.py:759-812 | for each side, exactly when a drift proposes |
| SignalReadings.RegimeReasonReading | scripts/archive/backtest_simulate.py:698-830 | the reason for no proposal is the first in its order whose condition holds |
| SignalReadings.VetoReading | scripts/archive/backtest_simulate.py:832-995 | a proposal is cleared by the first of fourteen conditions that holds, and stands if and only if none does |
| SignalReadings.SlopeDecides | scripts/archive/backtest_simulate.py:984-995 | where nothing else clears it, a proposal is dropped as slope_weak if and only if its own time frame's slope falls short: 15 minutes for fast trades, the hour for swings |
| SignalReadings.BlockReading | scripts/archive/backtest_simulate.py:939-1102 | what holds a proposal back, first of five conditions, in prices |
| SignalReadings.StopReading | scripts/archive/backtest_simulate.py:1012-1055 | how far behind the close the stop lies, for each style and side |
| SignalReadings.TargetReading | scripts/archive/backtest_simulate.py:1021-1070 | where both targets lie, for each style, regime and side |
| SignalReadings.EntryReading | scripts/archive/backtest_simulate.py:423-1156 | an entry if and only if something is proposed, nothing clears it, there is a close and nothing holds it back; else the first reason |
| SignalTheorems.EntryScore | scripts/archive/backtest_simulate.py:1653-1666 | an entry scored on any valid candles gets R in [-1, 1], -1 if and only if stopped, at least 1/3 for a target |
| Outcome.CheckOutcome | scripts/archive/backtest_simulate.py:1194-1231 | outcome, minutes, price and excursion of the first decisive candle: hold first, then stop, then target |
| Outcome.ComputeMaeR | scripts/analysis/label_outcomes.py:43-75 | the worst move up to the decisive candle in R, a stopped candle counted to the stop only |
| Outcome.LabelSignal | scripts/analysis/label_outcomes.py:148-175 | the label: stop if and only if the adverse excursion is 1R, result between the excursions |
| Outcome.FirstDecisiveIsFirst | scripts/archive/backtest_simulate.py:1205-1231 | the candle that ends the walk is decisive and none before it is |
| Outcome.StopMeansFullR | scripts/analysis/label_outcomes.py:43-75 | with the stop on its own side the outcome is STOP if and only if the adverse excursion is exactly 1R, which always lies in [0, 1] |
| Outcome.MisplacedStopWitness | scripts/analysis/label_outcomes.py:60-63 | a misplaced stop is hit at once with zero excursion |
| Outcome.LongerHoldSameVerdict | scripts/archive/backtest_simulate.py:1216-1230 | waiting longer leaves a stop or target verdict unchanged in every field |
| Outcome.MfeInsideHoldExactly | scripts/archive/backtest_simulate.py:1205-1231 | exactly when the reported excursion is the best move inside the hold |
| Outcome.ExitWithinLevels | scripts/archive/backtest_simulate.py:1205-1231 | on a level if and only if stop or target, strictly between them for a time exit, and within the excursions |
| Outcome.ExitWithinExcursions | scripts/analysis/label_outcomes.py:148-160 | result in R between minus the adverse and the favourable excursion, -1 if and only if stopped, the target if and only if taken |
| Outcome.ScoresAgree | scripts/archive/backtest_simulate.py:1662-1666 | on valid candles no exit price is zero, so backtest and labeler score alike |
| Outcome.PnlIsRealisedMove | scripts/archive/backtest_simulate.py:1167-1191 | on every exit the outcome walk produces the clip changes nothing: the result is the realised move on the notional |
| Outcome.PnlIsFractionOfNotional | scripts/archive/backtest_simulate.py:1167-1191 | every result is a price fraction times 1.5 balances |
| Outcome.PayoffsOrdered | scripts/archive/backtest_simulate.py:1167-1191 | for one trade a stop pays no more than a time exit, a time exit no more than the target |
| OutcomePrices.OutcomeInCandles | scripts/archive/backtest_simulate.py:1194-1231 | the first candle that does not leave the trade running decides: past the hold, stop, target, in that order, with whole minutes up to it |
| OutcomePrices.TimeExitPrice | scripts/archive/backtest_simulate.py:1215-1219 | a time exit is paid at the close of the latest candle after the signal before the deciding one, absent if and only if there is none |
| OutcomePrices.MfeInPrices | scripts/archive/backtest_simulate.py:1211-1217 | favourable excursion times stop distance is the best reach up to and including the deciding candle |
| OutcomePrices.MaeInPrices | scripts/analysis/label_outcomes.py:43-75 | adverse excursion times stop distance is the worst setback, the deciding candle counted in full, to the stop, or not |
| OutcomePrices.ScoresInPrices | scripts/archive/backtest_simulate.py:1653-1666 | both scores times stop distance are the move to the exit price |
| OutcomePrices.PnlInPrices | scripts/archive/backtest_simulate.py:1167-1191 | the dollar result times the entry is the paid move on 1.5 balances |
| BalanceLoop.TradeRecord.constructor | scripts/archive/backtest_simulate.py:1665-1692 | a record before the balance simulation |
| BalanceLoop.TrackDrawdown | scripts/archive/backtest_simulate.py:2059-2064 | peak and drawdown describe the balance curve |
| BalanceLoop.SimulateBalance | scripts/archive/backtest_simulate.py:2004-2065 | the records in order of time and, at equal times, in the order they came, each executed if and only if no executed trade of its symbol is open, results written in place, balance, drawdown and counts |
| BalanceLoop.RunBalance | scripts/archive/backtest_simulate.py:2015-2065 | the loop over the sorted records |
| BalanceLoop.OnePositionPerSymbol | scripts/archive/backtest_simulate.py:2035-2046 | executed trades of a symbol never overlap, and every skipped trade starts inside an executed one |
| BalanceLoop.BalanceCompounds | scripts/archive/backtest_simulate.py:2048-2058 | the balance is 1000 times the product of 1 plus 1.5 moves over the executed trades |
| BalanceLoop.AccountStaysPositive | scripts/archive/backtest_simulate.py:2048-2058 | with every stop under two thirds of its entry the balance stays positive |
| BalanceLoop.RuinWitness | scripts/archive/backtest_simulate.py:1179-1180 | at two thirds it is wiped out |
| BalanceLoop.AccountDrawdown | scripts/archive/backtest_simulate.py:2059-2064 | with every stop under two thirds of its entry the reported drawdown is the worst pair of the balance curve, under 100% |
| BalanceTimes.ExecutionInMinutes | scripts/archive/backtest_simulate.py:2019-2046 | skipped if and only if an earlier executed trade of the symbol is open, 60000 ms to each minute measured or, unmeasured, to each of the hold of its style and regime |
| BalanceTimes.NextAfterDecision | scripts/archive/backtest_simulate.py:1194-1231 | with minutes from the outcome walk, the symbol's next executed trade starts later than a minute before the candle that decided the last |
| BalanceTimes.BalanceStepInPrices | scripts/archive/backtest_simulate.py:2048-2058 | an executed trade changes the balance by its paid move on 1.5 balances, from 1000 |
| BalanceTimes.FactorInPrices | scripts/archive/backtest_simulate.py:2048-2058 | the factor times the price is the price plus 1.5 paid moves |
| BalanceTimes.CurveInTrades | scripts/archive/backtest_simulate.py:2004-2065 | one curve point for each executed trade after the starting 1000, and the count is theirs |
| ContourProtocol.ManagedContour.constructor | scripts/research_control_center.py:391-400 | a contour before its first start |
| ContourProtocol.ManagedContour.Start | scripts/research_control_center.py:406-468 | the flags a start leaves, running, spawned, unidentified or failed (false stands for the exception) |
| ContourProtocol.ManagedContour.ConsumeUnexpectedExit | scripts/research_control_center.py:476-492 | a report if and only if expected, not stopping, not reported and exited |
| ContourProtocol.ManagedContour.Stop | scripts/research_control_center.py:494-575 | the flags and the answer of every path through a stop, each a path of the contour's own actions; a true answer leaves the process gone |
| ContourProtocol.StopIsPath | scripts/research_control_center.py:494-575 | whatever its answers, an uninterrupted stop is a path of the protocol's actions |
| ContourProtocol.AnswersRead | scripts/research_control_center.py:521-575 | which answers of the outside world make a stop end gone, timed out or failed |
| ContourTheorems.AtMostOneReport | scripts/research_control_center.py:476-492 | under every interleaving each process generation is reported at most once |
| ContourTheorems.ReportableExactly | scripts/research_control_center.py:476-492 | after any history the current generation can still be reported if and only if it is unreported and expected, being started or under a poll |
| ContourTheorems.BegunStopExactly | scripts/research_control_center.py:494-496 | after a stop has begun its generation can still be reported if and only if the stop began inside a poll or between spawn and commit |
| ContourTheorems.ActingStopExactly | scripts/research_control_center.py:496-549 | when a stop acts again, the process it finds can be reported afterwards if and only if it could before |
| ContourTheorems.DisciplineExactly | scripts/research_control_center.py:406-498 | which moments for beginning stops and starting processes keep every exit a stop acted on unreported, if and only if |
| ContourTheorems.NoReportAfterStop | scripts/research_control_center.py:494-498 | after a stop on a started generation no new poll of it gets past its first read |
| ContourTheorems.StopDuringPollWitness | scripts/research_control_center.py:476-485 | an interleaving that reports an exit the operator asked for |
| ContourTheorems.StopDuringStartWitness | scripts/research_control_center.py:406-451 | a stop begun during start is overwritten by it and reported after it has given up |
| ContourTheorems.CarriedOverStopWitness | scripts/research_control_center.py:513-549 | a stop overtaken by the next start signals the new process, whose exit is reported |
| ContourTheorems.SuccessfulStopSawDeath | scripts/research_control_center.py:494-575 | a stop that returns true saw its generation gone |
| ContourTheorems.TimedOutExactly | scripts/research_control_center.py:559-571 | a stop whose deadline passes leaves its process alive if and only if none was started since it began |
| ContourTheorems.FailedStopOfLiveGenerationWitness | scripts/research_control_center.py:523-548 | a stop that fails otherwise with its process alive |
| ContourTheorems.FailedStopOfDeadGenerationWitness | scripts/research_control_center.py:521-534 | and with its process gone, no other started |
| ShutdownProtocol.HardFailRunsOnce | scripts/research_control_center.py:1325-1343 | under every interleaving of Tk, dispatcher and operator the hard-fail sequence is entered at most once |
| ShutdownProtocol.OllamaStopsLast | scripts/research_control_center.py:1348-1385 | ollama's stop is in progress only after the stop of each captured consumer has returned |
| ShutdownProtocol.ReleasedOnlyWhenStopped | scripts/research_control_center.py:2057-2061 | the lock released through a close event means the sequence looked at every slot of its kind and whatever runs there was started after that look |
| ShutdownProtocol.ClosePostedOnlyWhenStopped | scripts/research_control_center.py:1373-1395 | a close event waits only behind such a sequence |
| ShutdownProtocol.HardFailLeavesDashboardWitness | scripts/research_control_center.py:1345-1357 | for every slot an interleaving, the Tk thread between two of its tasks whenever it takes one up, that releases the lock with its contour running |
| ShutdownProtocol.SurvivorsExactly | scripts/research_control_center.py:1345-1395 | what can run when a hard fail has released the lock: in a profile slot exactly what was started after the capture, outside it anything |
| ShutdownProtocol.ClosingHasCause | scripts/research_control_center.py:2057-2079 | under every interleaving, while closing is set a stop sequence is at work or its result is still to be handled, unless it has closed the application; every sequence reports once |
| ControlCenter.RunningExactly | scripts/research_control_center.py:2908-2912 | a capture finds exactly the running contours, each with its process, in slot order |
| ControlCenter.HardFailEntered | scripts/research_control_center.py:1325-1371 | the whole effect of entering the hard fail, and that a second entry has none |
| ControlCenter.EventHandled | scripts/research_control_center.py:2052-2079 | what each event of the queue does, field by field |
| ControlCenter.QueueHandled | scripts/research_control_center.py:2052-2079 | events are taken from the head until none is left or the application has closed |
| ControlCenter.RefreshRead | scripts/research_control_center.py:2091-2134 | the first six slots are polled, and the hard fail entered if and only if one has an exit to report that no marker explains |
| ControlCenter.ControlCenter.constructor | scripts/research_control_center.py:1325-1343 | the center before any shutdown: lock held, nothing started |
| ControlCenter.ControlCenter.RunningContours | scripts/research_control_center.py:2908-2912 | the contours found running, in shutdown order |
| ControlCenter.ControlCenter.InitiateHardFailStop | scripts/research_control_center.py:1325-1398 | test-and-set, then capture of the profile, with one log event for each note the source queues; the second caller changes nothing |
| ControlCenter.ControlCenter.Close | scripts/research_control_center.py:2895-2950 | ignored while closing or unconfirmed, closed at once when idle, otherwise a stop sequence over all contours, a failing monitor noted in the queue |
| ControlCenter.ControlCenter.StopContour | scripts/research_control_center.py:494-575 | one contour's stop within the center, true if and only if the process is gone |
| ControlCenter.ControlCenter.CallStop | scripts/research_control_center.py:1374-1380 | one stop of a captured contour: that contour alone changes, and the recorded result is true if and only if its process is gone |
| ControlCenter.ControlCenter.StopAll | scripts/research_control_center.py:1374-1380 | every captured contour is stopped in order by its own stop, and a result is true if and only if its process is gone |
| ControlCenter.ControlCenter.StopOwned | scripts/research_control_center.py:1373-1395 | the thread posts a close event if and only if every captured process is gone and, for the operator, the external ones are too |
| ControlCenter.ControlCenter.OnRuntimeMonitorFailure | scripts/research_control_center.py:1954-1971 | one event for the Tk thread and one dispatcher |
| ControlCenter.ControlCenter.DispatchHardFail | scripts/research_control_center.py:1954-1971 | a dispatcher thread is used up, and enters the hard-fail sequence unless one was ever started |
| ControlCenter.ControlCenter.RefreshButtons | scripts/research_control_center.py:2091-2134 | the required contours are polled, and an exit no stop marker explains enters the hard fail, log events included |
| ControlCenter.ControlCenter.DrainQueue | scripts/research_control_center.py:2052-2079 | the queue is handled in order until empty or closed, and a failed stop adds a log event behind it |
| ControlCenter.ControlCenter.Poll | scripts/research_control_center.py:2051-2089 | the queue is drained in order and the required contours are polled, unless the application has closed |
| ControlCenter.ReachableIsSafe | scripts/research_control_center.py:1325-1398 | every state the methods can reach together keeps the protocol's invariants and its release guarantee |
| TapeWriter.TapeWriter.constructor | scripts/analysis/tape_recorder.py:170-176 | a writer with nothing open |
| TapeWriter.OpenFile.constructor | scripts/analysis/tape_recorder.py:182-184 | opening for append creates a missing file |
| TapeWriter.OpenFile.WriteRow | scripts/analysis/tape_recorder.py:212 | a line goes to the buffer |
| TapeWriter.OpenFile.Flush | scripts/analysis/tape_recorder.py:226-227 | the buffer is appended to the file |
| TapeWriter.TapeWriter.FlushFiles | scripts/analysis/tape_recorder.py:226-227 | every open buffer is appended to its file |
| TapeWriter.TapeWriter.Flush | scripts/analysis/tape_recorder.py:225-228 | the same, with the counter reset |
| TapeWriter.TapeWriter.Close | scripts/analysis/tape_recorder.py:230-235 | everything on disk, nothing open |
| TapeWriter.TapeWriter.RotateSymbolDay | scripts/analysis/tape_recorder.py:146-153 | a plain file moves into a missing compressed one; nothing happens if that exists |
| TapeWriter.TapeWriter.CompressDay | scripts/analysis/tape_recorder.py:199-201 | all symbols of the finished day at once, in any order |
| TapeWriter.TapeWriter.RotateIfNeeded | scripts/analysis/tape_recorder.py:193-206 | a change of date closes, compresses and starts over |
| TapeWriter.TapeWriter.OpenSymbol | scripts/analysis/tape_recorder.py:178-191 | a header if and only if the file is new; files and writers keep the same keys on the current date |
| TapeWriter.TapeWriter.WriteRow | scripts/analysis/tape_recorder.py:212 | the row goes behind what its symbol has buffered |
| TapeWriter.TapeWriter.AppendRow | scripts/analysis/tape_recorder.py:211-212 | opening and writing together |
| TapeWriter.TapeWriter.CountRow | scripts/analysis/tape_recorder.py:213-214 | only the counters move |
| TapeWriter.TapeWriter.Write | scripts/analysis/tape_recorder.py:208-216 | the whole new state of disk, buffers and counters after a trade |
| TapeWriter.TapeWriter.WriteGap | scripts/analysis/tape_recorder.py:218-223 | the same after a gap marker, which is flushed and not counted |
| TapeWriterTheorems.RotateKeepsLog | scripts/analysis/tape_recorder.py:193-206 | a rotation leaves every log not past retention as it was |
| TapeWriterTheorems.RotateClosesDay | scripts/analysis/tape_recorder.py:193-206 | after it nothing is open, and a plain file of the old day remains only beside a compressed one |
| TapeWriterTheorems.RotationFileByFile | scripts/analysis/tape_recorder.py:193-206 | each file after a change of date: flushed, compressed, left behind or expired |
| TapeWriterTheorems.AppendLog | scripts/analysis/tape_recorder.py:178-212 | a row is added to its own log and to no other |
| TapeWriterTheorems.EventRecorded | scripts/analysis/tape_recorder.py:208-223 | one event adds exactly its row, behind a header if it starts a file |
| TapeWriterTheorems.EventKeepsForm | scripts/analysis/tape_recorder.py:178-223 | no event changes whether the file of a symbol and day is one header followed by data rows |
| TapeWriterTheorems.EventBoundsUnflushed | scripts/analysis/tape_recorder.py:208-228 | after each event fewer rows than the threshold are unflushed, and the buffers hold exactly those |
| TapeWriterTheorems.EventFlushes | scripts/analysis/tape_recorder.py:208-228 | a gap marker always flushes, a trade if and only if it fills the count |
| TapeWriterTheorems.NothingIsLost | scripts/analysis/tape_recorder.py:167-235 | over any run the rows of a symbol and day are those before followed by exactly those written |
| TapeWriterTheorems.FilesKeepForm | scripts/analysis/tape_recorder.py:167-235 | over any run the files of a symbol and day are well formed afterwards if and only if those there before were |
| TapeWriterTheorems.FilesStayHealthy | scripts/analysis/tape_recorder.py:167-235 | over any run, whatever else is on the disk, every file created is one header then data rows, well formed files stay so, and the buffers stay exact |
| TapeWriterTheorems.ClosedIsOnDisk | scripts/analysis/tape_recorder.py:230-235 | once closed, the whole log is in the files |

## Left out

- Rounding of reported figures (`round(x, 2..6)`), and float error: results are exact reals, so bounds are those of unrounded values.
- Indicator arithmetic, gap and swing search, hours and session ranges inside `compute_signal`: their results are fields of `SignalEngine.Tick`; the debug fields of its result are dropped.
- Day-file lookup, CSV parsing and malformed rows of the tape reader: the tape is the sequence of parsed rows.
- `detect_signals` and `load_frames`: signal rows and frames are inputs of `PumpCandidates.BuildFromSignalRows`.
- PumpPortfolio.PumpSimulation.Report: label and hold of the result, and the progress lines, are dropped.
- PumpRuin.NeverRuinedExactly: entry and exit times of its trades are free, as in the simulator's input; that signals under one hold bring about the ruinous run is not claimed.
- PumpPortfolio.PumpSimulation.SettlePositions: library sorting is the stable insertion sort of `Sorting`.
- SignalTheorems.EntryLevels: for positive close and ranges, positive stop factors and a drift target between R/3 and R; the defaults satisfy the last two.
- BalanceLoop.SimulateBalance: the records are different objects, as the source creates one for each signal.
- ContourProtocol.ManagedContour.Stop: whether and when the child dies, and whether a request or signal succeeds, comes from outside; log events are dropped.
- ShutdownProtocol.ReleasedOnlyWhenStopped: says nothing of a close with nothing running; that a contour can be started behind the capture is the source's (`_toggle` does not look at `_closing`).
- Shutdown state files, alert evidence, heartbeat, monitor lanes, widgets and prompts of the control center; an exception in the operator's stop thread, after which nothing is posted, is an unfinished sequence.
- A close request is one step from its check of `_closing` to the spawn of its thread, its capture excepted; a dispatcher entering in between is a hard fail just before or after it.
- TapeWriter.TapeWriter.RotateIfNeeded: retention's file ages are an input set of expired files; gzip is a move that keeps the content; a crash between two writes of one rotation is not modelled.
- Rows stay buffered until a flush; that the operating system may write them earlier is not modelled.
- `label_main_ws`, the Telegram chat state, subscriptions, report text and charts.
