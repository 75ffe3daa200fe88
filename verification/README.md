# tradalgo: a verified model of the trading engine

tradalgo turns intraday signals into alerts, manages the resulting trades on paper, and
backtests and sweeps its own settings. This project models the engine's stateful core and
proves what it is for: that a trade never loses more than the configured share of the capital
unless the market gaps, that its exits are conserved and ordered whatever mix of bars, ticks,
restarts and missed cycles drives it, that the day's slots always balance, that a crash between
any two writes books every exit exactly once and the realized R that stops the day is what the
database reports, that a backtest never looks ahead, and that a resumed sweep is the sweep it
interrupted.

Prices, R multiples and rupees are `real`; instants are `int` microseconds from an IST
midnight; quantities are `int`. Long and short are one model with a sign, and a reflection
theorem relates them. What the source updates in place is a class whose methods are proved equal to
a function of the old state; the theorems are about those functions, over every run.

## How the modules fit

- `Common`: `Option`, direction, extremes of lists.
- `Positions`, `PositionManager`: the exit rules of a trade as functions, and the classes that update its fields.
  `ExitRules` says when each exit fires and what the trail follows; `Lifecycle`, `Cursors`, `ChangeLog`, `StopMoves`,
  `Bounds`, `Floors` and `Mirror` are about every run; `Schedule` adds the cycle's replay loop, `ScheduleRuns` whole days
  of cycles and openings. `Fills` says in plain numbers what every event of a run is.
- `Limits`, `Slots`, `SessionState`: the daily risk state and the session's id sets. `SlotRuns`, `SlotCap`, `SlotRules`
  and `SlotTrades` are about whole days of them.
- `LiveSink`, `LiveSession`: buffered exits, alerts and the order of the writes. `CrashProtocol` is the state machine
  of single writes and crashes; `CrashSafety` and `DatabaseNet` hold its guarantees. `LiveDay` runs it together with the
  session's slots.
- `Costs`, `Validator`, `PaperBroker`: charges, sizing and acceptance, simulated fills. `BrokerRuns` and `Slippage`
  put the broker beside the manager; `DayLoss` puts the caps on trades and on losses together; `BacktestCapital` says what
  a record is in rupees and what the days make of the capital.
- `Grid`, `GridTree`, `Sweep`: the parameter grid and the resumable sweep.
- `CandleCache`, `Frames`, `Replay`, `BacktestSink`: stored candles, the frames a cycle sees, a day of cycles.
- `Indicators`, `RangeBreakout`: smoothed indicators and one detector.

## Where the code does less than its intent

Each of these is the code as it is, with a proof of when it does meet the intent.

- The pruned change log forgets what a bar that closes within five minutes of the last one would be judged by. Along
  every run it judges like a log that forgets nothing if and only if no bar finds a change recorded after the bar began
  and not after the last bar seen (`ChangeLog.PrunedJudgesAlikeIff`). Closed bars five minutes apart always meet that
  (`ChangeLog.PrunedLogRefinesFullLog`); `ChangeLog.CloserBarsDiffer` gives two bars that do not.
- `on_price` does not look at the entry bar. A trade adopted after a crash beside an older trade of its symbol can be
  handed, and stopped by, a bar that closed before its own entry: `ScheduleRuns.AdoptedTradeBars` says exactly when.
- The daily cap and the distinctness of the symbols hold as long as every Taken finds its reservation.
  `SlotCap.CapBrokenIff` and `SlotCap.RepeatsIff` give the exact steps that break each, whatever action they are,
  `SlotCap.LateTakenPassesTheCap` a day that passes the cap.
- `restore_partial` gives the trade the partial branch gives exactly for two shares or more
  (`Cursors.RestoreIsLivePartial`), but not the recorded change a live tick also leaves (`Cursors.LivePartialIs`): a later
  bar is judged alike exactly when it began at or after the tick (`Cursors.RestoredJudgedAlikeIff`).
- Two stop moves of one trade at one instant share a dedup key. After a flush a taken stop move has its own alert if and
  only if no earlier taken one of its trade has its instant (`CrashSafety.StopMoveAlertedIff`). One bar can give two, and
  exactly when is `StopMoves.TwoStopMovesIff`; `StopMoves.OneBarMovesTwice` is such a bar. Every exit leg does get its own
  alert.
- A line appended to a checkpoint after an unfinished one runs into it: it loads back if and only if the file ended in a
  newline, and after a whole line without its newline that line is lost too, so its combination runs again
  (`Sweeps.AppendLoadsIff`, `Sweeps.LostResultRunsAgain`). The outcome is still the same.
- The cache never refetches a day it already holds. A caller who knows only what is stored can rely on the answer exactly
  when the request does not end on the last stored day (`CandleCaches.ReliableIff`); the live session's requests, which end
  before their day, are always exact (`CandleCaches.LiveIsExact`).
- Slippage can raise the net R. For slippage of at most the whole price some trade is better off with it if and only if a
  rupee sold costs more than a rupee, where a brokerage capped at nothing costs nothing (`Slippage.SlippageHelpsIff`).

## Model

| member | source | states |
|---|---|---|
| PositionManagers.PositionManager.OnPrice | tradalgo/engine/positions.py:102-130 | The loop over the open trades: every trade's fields and the events, in order, are those of one step of each; nothing else changes |
| PositionManagers.PositionManager.UpdateTrade | tradalgo/engine/positions.py:145-180 | The branches of one update, stop first, then partial, runner, trail and hard exit, leave the fields and events of the reference update |
| PositionManagers.PositionManager.JudgedBy | tradalgo/engine/positions.py:109-120 | The stop and partial flag a late bar is judged against: those before the earliest change after the bar began |
| PositionManagers.PositionManager.Tighten | tradalgo/engine/positions.py:187-193 | The stop moves only to the tighter of the two, and the result says whether it moved |
| PositionManagers.PositionManager.RestorePartialOf | tradalgo/engine/positions.py:87-95 | A recorded partial is restored on that trade alone |
| PositionManagers.PositionManager.Close | tradalgo/engine/positions.py:97-100 | A recorded close empties and closes that trade alone |
| Lifecycle.SharesConserved | tradalgo/engine/positions.py:136-180 | In every run, shares sold plus shares left are the shares bought, and a trade is closed exactly when nothing is left |
| Lifecycle.StopNeverLoosens | tradalgo/engine/positions.py:187-193 | Between any two points of any run the stop never loosens, and it is never looser than the initial one |
| Lifecycle.EventGrammar | tradalgo/engine/positions.py:145-180 | Every run emits a prefix of stop or hard exit, whole partial, or partial, stop moves, then one close; the last event closes exactly when the trade is closed |
| Lifecycle.StepIsSound | tradalgo/engine/positions.py:102-130 | Every step keeps shares, stop and recorded stops consistent, and an applied price at or past the hard exit closes the trade |
| Lifecycle.RunIsSound | tradalgo/engine/positions.py:102-180 | From any consistent trade every run conserves shares, tightens the stop and walks the phases of the event grammar |
| ExitRules.RunEmitsIff | tradalgo/engine/positions.py:145-180 | Over any run of bars and ticks an exit of a kind is emitted if and only if at some price it was due: the stop before everything, a partial once, the runner only for a price that began after the partial or takes it, the hard exit only when nothing else closed |
| Fills.EveryEventIsFill | tradalgo/engine/positions.py:132-180 | Every event of every run comes from some price, at its instant, in plain numbers: a stop at the worse of open and stop on all the shares held, a partial at its target for its part of the shares, a runner at its target, a hard exit at the close when it is time, each with its profit in R |
| Fills.PartialSellsItsFraction | tradalgo/engine/positions.py:154-163 | In every run a partial sells the fraction of the shares, rounded down, and at least one |
| Fills.RestoreLeavesTheRest | tradalgo/engine/positions.py:87-95 | A restored partial leaves the shares the fraction does not take, and the stop at the tighter of its own and the entry |
| Fills.ExcursionsAreExtremes | tradalgo/engine/positions.py:121-122 | Over every run the trade's excursions are the running extremes in R of the prices new to it while it was open |
| ExitRules.WindowIsRecentBars | tradalgo/engine/positions.py:170-172 | Whatever ticks come between, an open trade's window holds the lows and highs of its last closed bars |
| ExitRules.TrailFollowsBars | tradalgo/engine/positions.py:173-176 | Past the partial, after a closed bar, the stop is at least as tight as the extreme of the last trail bars |
| ExitRules.StopGoesNowhereElse | tradalgo/engine/positions.py:164-176 | Over every run a price moves the stop of a trade that stays open only to the entry, as the partial is taken, or, as a bar closes after it, to the extreme of exactly the last trail bars |
| Cursors.ReplayIsSilent | tradalgo/engine/positions.py:107-119 | Replaying bars and ticks already applied emits nothing and changes nothing |
| Cursors.NothingOutlivesHardExit | tradalgo/engine/positions.py:178-179 | A day's run with one price at or past the hard exit ends closed, whatever else it holds |
| Cursors.RestoreIsLivePartial | tradalgo/engine/positions.py:87-95 | Restoring a partial gives the trade the partial branch of an update gives if and only if two shares or more were held |
| Cursors.NoChangeBeforePartial | tradalgo/engine/positions.py:124-129 | On every run a trade has recorded no change until its partial |
| Cursors.LivePartialIs | tradalgo/engine/positions.py:107-129 | A price that only takes the partial leaves the restored trade but for its cursor, its excursions, the bar in the window, and, for a tick, the change it recorded |
| Cursors.RestoredJudgedAlikeIff | tradalgo/engine/positions.py:113-117 | After a tick took the partial a bar is judged alike by the live and the restored trade if and only if it began at or after the tick |
| ChangeLog.PrunedLogRefinesFullLog | tradalgo/engine/positions.py:113-129 | With closed bars five minutes apart and any ticks, or with no forgotten change in the way, the pruned log gives the events and trade of a log never pruned; it stays time-sorted and newer than the last bar |
| ChangeLog.PrunedJudgesAlikeIff | tradalgo/engine/positions.py:113-129 | On every run, whatever the spacing: the pruned log judges every bar as the full log does if and only if no bar finds a change recorded after it began and not after the last bar seen |
| ChangeLog.RecordedStopsAreLooser | tradalgo/engine/positions.py:113-127 | No price is judged against a stop tighter than the current or looser than the initial one |
| ChangeLog.JudgedAsOfStart | tradalgo/engine/positions.py:107-129 | A bar is judged by the stop and the partial flag in force when it began, whatever ticks came since, even from after its close |
| ChangeLog.CloserBarsDiffer | tradalgo/engine/positions.py:113-129 | Two bars closer than five minutes on which the pruned and the full log disagree |
| StopMoves.StopMovesClimb | tradalgo/engine/positions.py:187-193 | On every run the stop is the last one announced, and of two announced the later is strictly tighter |
| StopMoves.TwoStopMovesIff | tradalgo/engine/positions.py:154-176 | A price announces at most two stop moves, and two if and only if it takes a partial of several shares that moves the stop to the entry and then completes a trail window beyond the entry |
| StopMoves.OneBarMovesTwice | tradalgo/engine/positions.py:164-176 | A concrete bar that announces two |
| Bounds.GrossRIsCapped | tradalgo/engine/positions.py:145-180 | On closed bars a trade never books more than the partial at its level and the rest at the runner target |
| Floors.GrossRHasFloor | tradalgo/engine/positions.py:147-151 | On any bars and ticks none of which opens below a floor of at most -1 R, no less than the floor is booked per share sold |
| Floors.OpenTradeBooksItsPartial | tradalgo/engine/positions.py:157-165 | While a trade is open its events have booked exactly its partial, if it had one |
| Floors.BreakevenKeepsPartial | tradalgo/engine/positions.py:164-165 | With breakeven on and no gap below the entry, a trade open after its partial never ends with less than the partial's R |
| Mirror.LongAndShortMirror | tradalgo/engine/positions.py:136-193 | Reflecting every price turns any run of a long trade into that of the short one, with the same shares and R |
| Schedule.ManageSymbol | tradalgo/engine/cycle.py:201-219 | One symbol's loop hands its manager every closed bar of the day its open trades have not seen, once, in order |
| ScheduleRuns.ScheduleIndependence | tradalgo/engine/cycle.py:207-219 | For any instants of cycles and any trades opened between them, the events and final state of each trade, old or new, are those of one in-order pass over its closed bars |
| ScheduleRuns.WholeDay | tradalgo/engine/cycle.py:201-271 | Over a day that starts with no trade, each trade is the one pass over the bars after its entry bar, events and all |
| ScheduleRuns.DayEventsAreOfBars | tradalgo/engine/cycle.py:201-219 | Each of those events is of a bar of the day that closed after the entry bar, at the instant of its close, filled by that bar's own open, high, low and close |
| ScheduleRuns.CycleFromOwnCursor | tradalgo/engine/cycle.py:207-219 | Whatever the other trades and their cursors, a cycle gives a trade that has seen a bar exactly the bars after it |
| Schedule.CycleGivesUnseen | tradalgo/engine/cycle.py:207-219 | Where all trades have seen the bars up to an instant, new ones included, a cycle gives each exactly the bars since |
| ScheduleRuns.AdoptedTradeBars | tradalgo/engine/cycle.py:211-216 | An adopted trade is given only bars after its entry if and only if no bar closes between the oldest cursor and its entry bar |
| ScheduleRuns.AdoptedTradeCanExitBeforeEntry | tradalgo/engine/cycle.py:211-219 | A concrete adopted trade that a bar closed before its entry stops out |
| Limits.ReleaseEntry | tradalgo/risk/limits.py:51-63 | The back scan deletes the last open entry of the symbol, or changes nothing |
| Limits.RegisterExit | tradalgo/risk/limits.py:66-75 | The front scan closes the first open entry of the symbol with its net R |
| Limits.ReleaseUndoesRegister | tradalgo/risk/limits.py:42-63 | Releasing a fresh registration restores the risk state, up to the place of a symbol that was open twice |
| Limits.ScansAgree | tradalgo/risk/limits.py:51-75 | With distinct symbols the two scans find the same entry |
| Limits.AllowedIff | tradalgo/risk/limits.py:19-39 | A signal is allowed if and only if the state is of its day, the realized R is above the loss limit, a slot is left, its symbol was not traded, and no closed trade of its strategy lost a full R; otherwise the first of these that fails is named |
| SessionStates.SessionState.ReserveSlot | tradalgo/engine/cycle.py:165-175 | A slot is reserved once, unless reserved or taken |
| SessionStates.SessionState.ReleaseSlot | tradalgo/engine/cycle.py:178-183 | Only a reservation is given back, and its registration with it |
| SessionStates.SessionState.RegisterTaken | tradalgo/engine/cycle.py:186-198 | A reservation becomes the registration, a late Taken registers anew, and a known close is settled at once |
| SessionStates.SessionState.RouteEvents | tradalgo/engine/cycle.py:222-243 | Legs booked and taken trades counted in the order of the events; then, in order of their ids, exactly the trades with an event that are no longer open are closed and settled |
| SessionStates.SessionState.EnterTrade | tradalgo/engine/cycle.py:246-271 | An accepted plan is opened, its signal marked seen, its slot reserved |
| SessionStates.SessionState.ReleaseExpiredReservations | tradalgo/engine/session.py:147-152 | Every reservation is looked at, in order of the ids, and exactly those whose alert is still valid stay |
| SlotRuns.DoBalanced | tradalgo/engine/cycle.py:165-271 | Every action of the session keeps the accounts of reserved, taken, open and settled trades balanced |
| SlotRuns.SlotAccounting | tradalgo/engine/cycle.py:165-243 | On every reachable state, crashes included: reserved and taken are disjoint and counted by the risk state, the open symbols are those of the open entries, the realized R that of the taken trades that closed, each once |
| SlotRuns.BalancedAcrossCrashes | tradalgo/engine/session.py:176-211 | The accounts balance in memory and in the state file wherever crashes, adoptions and recovered closes fall |
| SlotCap.CountMoves | tradalgo/engine/cycle.py:178-198 | Any action but an entry moves the count by its late Takens less the slots it frees |
| SlotCap.CapBrokenIff | tradalgo/risk/limits.py:19-48 | From within the cap a step passes it if and only if its late Takens, less the slots it frees, do not fit; an entry never does |
| SlotCap.RepeatsIff | tradalgo/risk/limits.py:19-48 | From distinct symbols any action repeats one if and only if a late Taken's symbol already has an entry or two late Takens share one; an entry never does |
| SlotCap.CapAndIndependence | tradalgo/risk/limits.py:19-75 | On every run without late Takens, saves and crashes anywhere, the cap holds, the symbols are distinct, and the two scans agree |
| SlotCap.SkipUndoesEnter | tradalgo/engine/cycle.py:178-183 | Entering a trade and giving its slot back leaves the risk state exactly as it was |
| SlotCap.LateTakenPassesTheCap | tradalgo/engine/cycle.py:194-196 | A day of five actions that ends one past a cap of one |
| SlotRules.ExpiryIff | tradalgo/engine/session.py:147-152 | Going through the reservations keeps exactly those whose alert is still valid |
| SlotRules.DoKeepsClosed | tradalgo/risk/limits.py:42-75 | No action of the session drops or changes a settled entry |
| SlotRules.RefusedForTheDay | tradalgo/risk/limits.py:19-39 | Once a strategy has lost a full R or a symbol's trade has settled, neither is accepted again that day, whatever happens in between |
| SlotRules.LossLimitStopsTheDay | tradalgo/risk/limits.py:28-29 | In every reachable state, crashes included: while the net R of the settled taken trades sums to the limit's loss, nothing is entered |
| SlotRules.RecoveredCloseCounts | tradalgo/engine/session.py:199-211 | A close the state missed keeps the row's gross R and settles its net R at once if the trade is taken |
| SlotTrades.EntriesAreTrades | tradalgo/risk/limits.py:42-75 | On every run without late Takens, saves and crashes anywhere, the entries of the risk state are exactly those of the reserved and taken trades, each with its symbol, strategy and, once settled, net R |
| SlotTrades.GateIff | tradalgo/risk/limits.py:19-39 | On such a run a signal passes the rules if and only if the settled trades have not lost the limit, fewer than the cap are reserved or taken, none of those is of its symbol, and none of its strategy was settled at a full R's loss |
| DayLoss.DayLossCap | tradalgo/risk/validator.py:38-41 | At any point of such a run the taken trades together have lost, gross, at most the cap on trades times the configured share of the capital, when none opened beyond its initial stop |
| LiveSinks.LiveSink.RecordExitLeg | tradalgo/engine/live_sink.py:94-116 | A leg is added to its row once, with the net R when it closes; a row written before is left alone |
| LiveSinks.LiveSink.EnqueueEventAlert | tradalgo/notify/sender.py:32-40 | An alert is inserted unless its dedup key is there |
| LiveSinks.LiveSink.FlushEventAlerts | tradalgo/engine/live_sink.py:81-92 | The loop applies every buffered leg and alert in order and empties the buffer |
| LiveSessions.LiveSession.AfterChange | tradalgo/engine/session.py:154-158 | The writes made, in order: the file with the whole state, then for each pending event its leg, its alert, and only then its removal |
| LiveSessions.WritesAreProtocolSteps | tradalgo/engine/session.py:154-158 | After any number of those writes the file and the database are those of a protocol run of the same writes |
| LiveSessions.LiveSession.Route | tradalgo/engine/cycle.py:228-238 | Each event of a price is booked into the state and left pending, in order |
| LiveSessions.LiveSession.Restart | tradalgo/engine/session.py:160-211 | Reading the file back and reconciling row by row gives the reference restart |
| CrashProtocol.StepKeepsInv | tradalgo/engine/session.py:81-112 | Every single write and every crash keeps: the rows hold a prefix of the saved events, the alerts a shorter one, memory and file their suffixes |
| CrashProtocol.RestartOnlyReopens | tradalgo/engine/session.py:176-211 | With its file, a restart only reopens rows the file does not know |
| CrashSafety.LegsAreSavedAndBookedOnce | tradalgo/engine/live_sink.py:94-116 | In every reachable state each row is the plain sum of the legs of a prefix of the saved events, each added once, with their net R on the close; the rest is still pending in the file |
| CrashSafety.FlushedDatabaseAgrees | tradalgo/engine/session.py:154-158 | After a completed flush gross R, net R, partial and exit of every row are the state's |
| CrashSafety.RecoveryCompletes | tradalgo/engine/session.py:102-105 | Wherever the process died, restart, save and flush bring database and state into agreement, and a second flush changes nothing |
| CrashSafety.RecoveryIsIdle | tradalgo/engine/session.py:160-211 | While the file survives, no restart finds a partial or a close the state missed |
| CrashSafety.RestartWithoutFile | tradalgo/engine/session.py:160-198 | Even when the file is lost after a completed flush, a restart knows exactly the open trades, each with its shares, partial and gross R; only the stop starts again |
| CrashSafety.AlertsAtMostOnce | tradalgo/notify/sender.py:29-40 | No dedup key has two alerts, no once-only event of a trade is alerted twice, and every alert is for a saved, taken event |
| CrashSafety.FlushedAlertsComplete | tradalgo/engine/live_sink.py:81-92 | After a completed flush every taken exit leg has its own alert and every taken stop move one with its key |
| CrashSafety.StopMoveAlertedIff | tradalgo/notify/sender.py:32-40 | After a completed flush a taken stop move has its own alert if and only if no earlier taken stop move of its trade has the same instant |
| CrashSafety.OnePriceOneKey | tradalgo/notify/sender.py:37-38 | The stop moves one price announces have one dedup key between them |
| CrashSafety.StopMovesShareAKey | tradalgo/notify/sender.py:37-38 | In every such state the second of two taken stop moves at one instant has no alert of its own |
| DatabaseNet.DatabaseNetIsEngineNet | tradalgo/engine/live_sink.py:108-122 | After a completed flush the net R of every closed row is exactly the net R the engine counts for the same events |
| LiveDay.RealizedIsReported | tradalgo/engine/cycle.py:222-243 | On every run of entries, prices, answers, saves, single writes and crashes: after a completed flush the realized R is the sum of the net R the database reports for exactly the taken trades that closed |
| LiveDay.ReportedLossStopsTheDay | tradalgo/risk/limits.py:28-29 | Once the database reports the limit's loss after a completed flush, nothing more is entered |
| CrashProtocol.ClosingLegs | tradalgo/engine/live_sink.py:118-122 | The charges a close books, from one row and one event, are those of the actual legs |
| Costs.ChargesMonotone | tradalgo/risk/costs.py:13-22 | Raising order values on either side never lowers the charge |
| Costs.ChargesAreRates | tradalgo/risk/costs.py:13-22 | The charge is brokerage with tax, one rate on the bought and one on the sold turnover, stamp duty in the first and the securities tax in the second |
| Costs.BrokerageIsCapped | tradalgo/risk/costs.py:9-10 | No order pays more brokerage than the cap: its percentage up to there, exactly the cap beyond |
| Costs.BrokerageWithinCaps | tradalgo/risk/costs.py:13-17 | Any orders together pay at most the cap on each |
| Costs.SplittingNeverCheaper | tradalgo/risk/costs.py:9-22 | Executing one order as two on the same side, among any others, never lowers the charge |
| Costs.SavingIsBounded | tradalgo/risk/costs.py:13-22 | Dearer buys and cheaper sells save at most the marginal sell rate on what the sells lost |
| Costs.EffectiveCharges | tradalgo/risk/costs.py:13-22 | Orders of no negative value are charged as if a brokerage capped at nothing had no percentage |
| Validator.PositionQtyIsLargest | tradalgo/risk/sizing.py:8-14 | A number of shares is at most the size if and only if its risk is within the cap and its margin within the capital |
| Validator.RoomIsForEveryLevel | tradalgo/risk/validator.py:45-52 | Testing the nearest opposing level is testing every one |
| Validator.AcceptedIff | tradalgo/risk/validator.py:30-61 | A signal is accepted if and only if the day's rules allow it, one share at the worst fill fits the risk cap and the margin, every level ahead leaves the least room, and win probability times one plus the win is more than one plus the modeled charges in R, all in plain numbers |
| Validator.AcceptedFigures | tradalgo/risk/validator.py:54-77 | An accepted plan's expected value, charges, risk, margin, room, leverage, band and time limit |
| Validator.LikelierStaysAccepted | tradalgo/risk/validator.py:57-59 | A better assumed win probability never turns an acceptance into a rejection, while a win is worth more than losing one R |
| Validator.DearerStaysRejected | tradalgo/risk/validator.py:54-59 | Dearer charges on the size never turn a rejection into an acceptance |
| Validator.AcceptedSize | tradalgo/risk/validator.py:38-65 | An accepted plan buys the most shares whose stop-out at the worst fill is within the risk cap and whose margin is within the capital |
| Validator.TargetsAreLevels | tradalgo/risk/validator.py:67-68 | The targets an alert names are the prices at which the manager takes the partial and the runner |
| PaperBrokers.PaperBroker.OnEvent | tradalgo/backtest/paper_broker.py:55-62 | A leg is added; the one that completes the quantity closes the trade and returns its record |
| PaperBrokers.PaperBroker.ForceClose | tradalgo/backtest/paper_broker.py:64-68 | The rest is sold at the price and the trade leaves the book |
| PaperBrokers.ExcursionsAreExtremes | tradalgo/backtest/paper_broker.py:45-53 | Whatever bars and events reach a trade, its excursions, open or in its record, are the running extremes in R of the bars it saw from its entry to its close, and never on the wrong side of zero |
| PaperBrokers.PaperBroker.Open | tradalgo/backtest/paper_broker.py:33-37 | A new id, holding the plan at its fill |
| BrokerRuns.BrokerFollowsManager | tradalgo/backtest/paper_broker.py:55-62 | In every run the broker holds a trade exactly while the manager does, its legs are the manager's exits, and on the close they sum to the quantity |
| BrokerRuns.ForcedCloseCompletes | tradalgo/backtest/paper_broker.py:64-68 | A forced close sells exactly what the events left |
| BrokerRuns.BrokerGrossR | tradalgo/backtest/paper_broker.py:76-91 | The broker's gross R is the booked R less the part of an R the fill gave away |
| BrokerRuns.BrokerWithinBand | tradalgo/backtest/paper_broker.py:24-25 | For a plan the validator accepts, filled in its band, the two differ by no more than the band |
| BrokerRuns.GapLoss | tradalgo/risk/validator.py:34-41 | End to end with gaps: the loss is at most the worst open in R and the band, on every share |
| BrokerRuns.LossCap | tradalgo/risk/validator.py:38-41 | End to end: an accepted plan, any fill in its band, any bars and ticks not opening beyond the initial stop: the gross loss never exceeds the configured share of the capital |
| BrokerRuns.RecordReportsProfit | tradalgo/backtest/paper_broker.py:70-97 | The record's gross R in rupees is that profit |
| BacktestCapital.RecordIs | tradalgo/backtest/paper_broker.py:70-97 | The record of a complete trade in plain numbers: net rupees are the raw profit less slippage on everything traded less the charges on the slipped orders; every R figure times the risk is its rupees; entry and exit price are the slipped turnovers a share; exit time and reason are those of the last leg |
| BacktestCapital.CompletedBy | tradalgo/backtest/paper_broker.py:55-62 | An event closes its trade if and only if its shares complete the quantity, and the record ends with it |
| BacktestCapital.CompletedByForce | tradalgo/backtest/paper_broker.py:64-68 | A forced close completes the quantity, at its own time and reason |
| BacktestCapital.RunCapital | tradalgo/backtest/replay.py:225-245 | Each day starts from the capital the day before left: its start and the net rupees of its records |
| BacktestCapital.DayMakes | tradalgo/backtest/replay.py:244-245 | A day moves the capital by what its trades made at their own prices, less slippage and charges |
| Slippage.SlippageRupees | tradalgo/backtest/paper_broker.py:74-95 | Slippage costs its rate on the entry turnover and on the exit turnover |
| Slippage.SlippageNeverHelps | tradalgo/backtest/paper_broker.py:74-95 | While the marginal charge on sells is at most a rupee per rupee, net R with slippage is never better than without |
| Slippage.SlippageHelpsIff | tradalgo/backtest/paper_broker.py:74-95 | For every configuration: slippage of at most the whole price makes some trade better if and only if the marginal charge on sells, without a brokerage capped at nothing, is more than a rupee per rupee |
| Slippage.EngineBooksEveryShare | tradalgo/engine/cycle.py:153-162 | After any run the engine has booked exactly the shares sold, at their prices, so on a close nothing is unbooked |
| Slippage.UnbookedAtEntry | tradalgo/engine/cycle.py:153-162 | A close restored without its legs costs what it would if the rest had been sold at the entry |
| Slippage.EngineAndBrokerAgree | tradalgo/engine/cycle.py:153-162 | When the fill is the signal's entry, the engine's net R of a closed trade is the broker's without slippage |
| Grids.Unrank | tradalgo/backtest/sweep.py:127-132 | The loop gives the mixed-radix digits of the index |
| Grids.UnrankIsBijection | tradalgo/backtest/sweep.py:127-132 | Indices below the product and in-range tuples correspond one to one |
| Grids.UnrankIsProduct | tradalgo/backtest/sweep.py:116-122 | The tuple of an index is the one the whole product has there |
| Grids.UnrankIsOrdered | tradalgo/backtest/sweep.py:119-122 | Larger indices give lexicographically larger tuples |
| Grids.Picks | tradalgo/backtest/sweep.py:116-123 | The picks are in range, strictly ordered, and all of the product when it fits, else as many as allowed |
| GridTrees.Nest | tradalgo/backtest/sweep.py:100-107 | The loop inserts every path and value in order |
| GridTrees.CombinationHasGridPaths | tradalgo/backtest/sweep.py:89-123 | Rebuilding the leaves with one value each never fails and has exactly the grid's leaf paths, in order, with that candidate |
| Sweeps.TopIsBest | tradalgo/backtest/sweep.py:357-359 | The top k are distinct, best first, none left out beats one of them, and they are k unless all scored are there |
| Sweeps.ScoredIff | tradalgo/backtest/sweep.py:204-207 | In the outcome a combination has a score if and only if its training made the least number of trades |
| Sweeps.BetterScoresNoLower | tradalgo/backtest/sweep.py:204-207 | Of two scored ones, the one with no less expectancy and no more drawdown has no lower score, for any rounding that keeps order |
| Sweeps.AheadIff | tradalgo/backtest/sweep.py:359 | Without rounding one is ranked ahead if and only if its lead in expectancy exceeds the penalty on its extra drawdown, ties by index |
| Sweeps.TestedAreAhead | tradalgo/backtest/sweep.py:357-361 | Exactly as many as asked for are tested, and each is ahead of every scored one that is not |
| Sweeps.VerdictMeans | tradalgo/backtest/sweep.py:210-218 | The overfit and gate verdicts of the outcome, in the numbers of both phases |
| Sweeps.BetterTestKeepsVerdict | tradalgo/backtest/sweep.py:210-218 | A better test is never newly overfit and never loses the gate |
| Sweeps.HistoryIsTruthful | tradalgo/backtest/sweep.py:182-201 | After any history of appended results and interruptions, what loads is what those combinations report |
| Sweeps.LoadsIff | tradalgo/backtest/sweep.py:182-201 | A checkpoint loads if and only if its first readable line is a header of the same grid and phases, and of the same base configuration unless that is ignored; it then loads exactly the results in it |
| Sweeps.AppendLoadsIff | tradalgo/backtest/sweep.py:182-201 | An appended result loads back if and only if the file ended in a newline; after a torn line only it is lost, after a whole line without its newline that line too |
| Sweeps.LostResultRunsAgain | tradalgo/backtest/sweep.py:340-355 | A finished result lost that way is run again unless another line holds it |
| Sweeps.RunSweep | tradalgo/backtest/sweep.py:320-365 | Fresh or resumed, with workers finishing in any order: scores and gates of the recorded results are those of one uninterrupted run, nothing run twice, nothing finished run again |
| Sweeps.RanOnce | tradalgo/backtest/sweep.py:355-361 | The tasks of a run are distinct and none was completed before |
| CandleCaches.NormalizeIs | tradalgo/data/base.py:29-36 | The normal form is strictly sorted and holds, of each instant, the last row |
| CandleCaches.CandleCache.Get | tradalgo/data/candle_cache.py:23-44 | The stored candles follow the source without a hole; the answer equals the source's range if and only if the last stored day is not the request's end, or is complete; only days outside are fetched |
| CandleCaches.CandleCache.GetEach | tradalgo/data/candle_cache.py:23-44 | On a source that stays the same every answer is exactly the source's range, over any requests |
| CandleCaches.ReliableIff | tradalgo/data/candle_cache.py:30-33 | Whatever the source, the answer is its range if and only if the request does not end on the last stored day |
| CandleCaches.LiveIsExact | tradalgo/engine/session.py:127-134 | Over any requests that end before their own day, on a source that grows between them, degraded or not, every answer is exactly the source's range |
| CandleCaches.MergedFollows | tradalgo/data/candle_cache.py:35-41 | Merging the fetched ranges keeps the stored candles sorted, unique and without a hole, and refreshes the last day |
| CandleCaches.FollowsLater | tradalgo/data/candle_cache.py:32-33 | A cache that follows a source follows what it grows into |
| Indicators.Wilder | tradalgo/indicators/core.py:5-16 | The seeded loop computes the smoothed value at every index, missing values included |
| Indicators.SmoothedWithin | tradalgo/indicators/core.py:5-16 | Smoothing never leaves the range of the values seen |
| Indicators.WilderWeights | tradalgo/indicators/core.py:5-16 | A smoothed value in closed form: n indices after the seed its mean weighs ((p - 1) / p)^n, a value k indices old ((p - 1) / p)^k / p |
| Indicators.SmoothedDominates | tradalgo/indicators/core.py:5-16 | Smoothing keeps a sum of series below a series that dominates it, and is defined at the same places |
| Indicators.DirectionalBounds | tradalgo/indicators/core.py:52-60 | Both directional indicators and their sum are in [0, 100] on every series of well-formed bars |
| Indicators.AdxBounds | tradalgo/indicators/core.py:61-63 | ADX is in [0, 100] |
| Indicators.RangeSpans | tradalgo/indicators/core.py:19-23 | The true range is what the bar and the close before it span |
| Indicators.FlippedIndicators | tradalgo/indicators/core.py:52-63 | On the bars upside down the two directional indicators change places and ADX stays |
| Indicators.RisingPointsUp | tradalgo/indicators/core.py:52-60 | Where no bar reaches below the one before, the downward indicator is zero and the upward one the rises' percentage of the range |
| Indicators.DxIsShare | tradalgo/indicators/core.py:61-62 | The directional index is the percentage of the sum that the difference is |
| Indicators.RsiBounds | tradalgo/indicators/core.py:42-49 | RSI is in [0, 100] and missing exactly where the smoothed gains are |
| Indicators.RsiIsShare | tradalgo/indicators/core.py:42-49 | RSI is the percentage of smoothed gains and losses that the gains are, so above 50 if and only if they are more |
| Indicators.RsiPointsTheWay | tradalgo/indicators/core.py:42-49 | On a series that never falls RSI is at least 50, and 100 once it rose; mirrored on one that never rises |
| Indicators.Ema | tradalgo/indicators/core.py:30-39 | The loop computes the exponential average at every index |
| Indicators.EmaWithin | tradalgo/indicators/core.py:30-39 | The average never leaves the range of its values |
| Indicators.EmaWeights | tradalgo/indicators/core.py:30-39 | The average in closed form, with alpha 2 / (p + 1) |
| RangeBreakouts.BoxContainsBreakout | tradalgo/strategies/range_breakout.py:52-61 | The loop finds whether some bar of the box, with a full box of its own, closed outside it |
| RangeBreakouts.Detect | tradalgo/strategies/range_breakout.py:25-46 | The early returns give the signal the rule defines, with its direction, entry and bounded stop |
| RangeBreakouts.SignalIff | tradalgo/strategies/range_breakout.py:25-61 | In plain numbers: it fires if and only if there is a range reading and volume, the box is tight, the close is outside it, and every bar of the box with a full box of its own closed inside that; long above, short below, at the close |
| RangeBreakouts.StopIs | tradalgo/strategies/common.py:41-45 | The stop is at the far side of the box, or at the nearest or farthest bound, and always on the losing side |
| RangeBreakouts.SignalsAreSpaced | tradalgo/strategies/range_breakout.py:25-61 | Over all prefixes of a day two signals are at least bars + 1 bars apart |
| RangeBreakouts.SpacingIsTight | tradalgo/strategies/range_breakout.py:52-61 | A day on which two signals are exactly that far apart |
| Frames.FramesNeverLookAhead | tradalgo/engine/cycle.py:36-51 | Histories with the same closed bars give the same five- and fifteen-minute frames |
| Frames.FramesForgetOlderSessions | tradalgo/engine/cycle.py:48-49 | Sessions older than the window do not change any frame |
| Frames.FrameIs | tradalgo/engine/cycle.py:36-49 | The five-minute frame holds, in order, exactly the closed bars of today and of the sessions with fewer than the window between them and today |
| Frames.QuartersAre | tradalgo/engine/cycle.py:50-51 | A fifteen-minute candle has its quarter hour's first open, greatest high, least low, last close and total volume, and every quarter hour that is over and has a bar in the frame has one |
| Frames.LastDaysAre | tradalgo/engine/cycle.py:48 | The sessions kept are the latest ones, as many as allowed, or all |
| Frames.KeptCandleIsFinal | tradalgo/engine/cycle.py:50-51 | A kept fifteen-minute candle aggregates closed bars only, all its quarter hour will have, so it never changes later that day |
| Replays.CycleTimes | tradalgo/backtest/replay.py:58-65 | The cycles are every bar close from the first to the market's close |
| Replays.NoLookahead | tradalgo/backtest/replay.py:121-132 | Two histories with the same closed bars and begun opens up to an instant give the same signals, decisions, fills and state through it, whatever the detectors, regimes, levels and managers do |
| Replays.ContextReads | tradalgo/engine/cycle.py:284-294 | What a detector is told of the market comes from the index alone, the rest from its own symbol alone, and the daily candles from before the day |
| Replays.EverySignalOnce | tradalgo/engine/cycle.py:294-313 | Over a day every signal any cycle detects is decided, none twice, and every accepted plan is filled inside its band or missed outside it, once |
| BacktestSinks.BacktestSink.Accept | tradalgo/backtest/replay.py:121-132 | Filled exactly when the open after the signal's candle is in the band, else recorded as missed |
| BacktestSinks.BacktestSink.EmitEvent | tradalgo/backtest/replay.py:134-139 | The event that sells the last share adds the broker's record of exactly its trade; no other event adds or changes one |
| BacktestSinks.BacktestSink.CloseRemaining | tradalgo/backtest/replay.py:153-166 | At the data's end nothing stays open, every trade of the day owns exactly one record, and those added are the open trades', forced out at their symbol's last bar |

## Left out

- Rounding of floats: everything is proved over reals. The tolerance of `check_limits` is kept as a constant, and `round(x, 4)` in the sweep's score is any function.
- The loss of the state file in the middle of a flush: the crash theorems assume the last saved file survives, and `CrashSafety.RestartWithoutFile` a completed flush. The restart's branches for a partial or a close the file missed are modelled and proved not to fire while it does.
- Exceptions swallowed in the middle of a cycle: a step that fails halfway is not a step of the model. A flush cut short by one is, as any interleaving of single writes.
- `accept`, `record_signal` and `record_decision` finding a row of an earlier attempt: a new row has a new id. The entry alert of a new row is not part of this model.
- Writing the excursions (`mfe_r`, `mae_r`) to the database after a flush; what they are is proved for the manager and the broker.
- Validator.AcceptedIff: of the reasons for a rejection only the day's rules are characterised one by one (`Limits.AllowedIff`).
- ScheduleRuns.ScheduleIndependence: is about trades managed by bars alone, and about bars that arrive in order; a bar that the feed delivers after a later one was applied is dropped by the cursor rule.
- Bounds.GrossRIsCapped: is about runs of closed bars, because a late bar after a tick partial skips the runner check.
- Slippage.SlippageHelpsIff: slippage of more than the whole price, which would sell below nothing; `Slippage.SlippageNeverHelps` is about any slippage.
- LiveDay.RealizedIsReported: a price reaches one trade at a time; the trades of one symbol take it one after the other.
- SlotRuns.SlotAccounting: an id names one signal and a closed trade is not entered again, which the unique rows of the database provide.
- Sweeps.RunSweep: results are a function of the combination, and the base configuration is compared by its fingerprint; the pool of workers is any completion order.
- Replays.NoLookahead: a detector's signal is about a closed candle, as its contract says; the model's frames hold days, and time zones are not part of this model.
- CandleCaches.CandleCache.Get: one provider, with its degraded flag read once after the fetches; the fallback provider is not part of this model.
- Serialisation to JSON, parquet and SQL: the state file is a copy of the state, tables are maps and lists.
- The other detectors, regime classification, key levels, the screener, news, reports and message texts: uninterpreted or absent.
- Telegram delivery, retries and expiry of alerts, the kill switch, the dashboard, scheduling and logging.
