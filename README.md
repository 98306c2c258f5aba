# Backdrop core, modelled in Dafny

Backdrop is a backtesting web application. A browser client (Next.js) lets a
user write a trading strategy in Python, choose an instrument, a date range and
capital, and submit the code. A Django backend queues it through Celery, runs
it in a sandbox container and returns the trades, equity curve and metrics,
which the client draws as charts.

This project models the decision and state-update logic of that system, one
Dafny module per source file:

- `polling.dfy` (`Polling`): the submit-then-poll client. Its responses come
  from a finite sequence of server replies. What it does is a list of events.
- `debounce.dfy` (`Debounce`): the debounce hook, a class holding one timer
  handle plus a table of pending timers on a logical clock. `Simulate` drives it
  through a schedule of calls.
- `validation_schema.dfy` (`ValidationSchema`): the zod schema of the run
  parameters, as the list of issues it reports.
- `strategy_validation.dfy` (`StrategyValidation`): the validation hook. It is
  a class holding the parameter state and the last error, with the error-line
  formatting.
- `run_attempts.dfy` (`RunAttempts`): the free-run quota hook, with its two
  queries.
- `config.dfy` (`Config`): normalisation of the backend base URL.
- `calculations.dfy` (`ChartCalculations`): the chart-axis helpers: equity
  range, drawdown ticks and date ticks.
- `backtest.dfy` (`Backtest`): the strategy engine. `Backtester` holds the
  closes, the trade list and the equity curve array that `run_backtest`
  fills. Next to it are the trade metrics and the drawdown/Calmar logic.
- `sandbox_execute.dfy` (`SandboxExecute`): the syntax-tree safety check of
  the sandbox and the exit status of its entry point.
- `engine_views.dfy` (`EngineViews`): the health, task-result and
  code-execution endpoints.
- `authentication.dfy` (`Authentication`): bearer-token authentication.
- `market_data.dfy` (`MarketData`): the stock-listing import, which upserts
  into a table keyed by symbol.
- `celery_retry.dfy` (`CeleryRetry`): the broker-connection retry loop with
  doubling delays.
- `integration.dfy` (`Integration`): the client composed with the backend
  endpoints it calls.

Shared modules:

- `wrappers.dfy`: `Option` and `Result`.
- `strings.dfy`: prefix/suffix, `Split`/`Join` and their round trips.
- `json.dfy`: JSON values, `get` and Python truthiness.
- `http.dfy`: responses and reason phrases.
- `reals.dfy`: the least element of a list.

Two facts stand out in the model:

- The client sends `{"backtest": {code, name}}`, but the execute endpoint
  reads a top-level `code`. So no submission from the client is ever
  accepted: the endpoint answers 400 when its services are up, and 503 or
  500 otherwise. The client swallows the error and never polls
  (`Integration.SubmitToBackend`).
- `run_backtest` never returns. Building its result calls
  `calculate_total_return`, which subtracts a number from a bound method: a
  TypeError on any non-empty frame, and an IndexError on an empty one. The
  model therefore states the final state of the loop (trades and equity
  curve) and the raised error, and treats the metrics as functions of that
  state.

## Model

| member | source | states |
|---|---|---|
| Polling.SubmitBody | frontend/src/lib/Polling.ts:3-9 | the request body has the single key `backtest`, holding `code` and `name`; it has no top-level `code` |
| Polling.PollUrl | frontend/src/lib/Polling.ts:23 | the poll URL is the fixed host followed by exactly the server-supplied status path |
| Polling.IsTerminal | frontend/src/lib/Polling.ts:33 | a terminal reply carries a string status, and a "pending" status is never terminal |
| Polling.Classify | frontend/src/lib/Polling.ts:26-39 | a non-ok reply throws; the loop stops exactly on an ok reply whose status is "completed" or "error", and polls again exactly on an ok, non-null reply with any other status |
| Polling.FirstStop | frontend/src/lib/Polling.ts:25-39 | every reply before the stopping position makes the loop poll again, and the reply at that position (if any) does not |
| Polling.PollCycles | frontend/src/lib/Polling.ts:25-39 | polls are strictly sequential: fetch, 1000 ms wait, fetch, wait, … |
| Polling.PollTaskStatus | frontend/src/lib/Polling.ts:22-41 | the events are k fetch/wait rounds and then one final fetch, where k is the position of the first stopping reply; the loop ends as that reply dictates (no retry after a failed poll), or is still polling when no reply stops it |
| Polling.Submitted | frontend/src/lib/Polling.ts:11-18 | a non-ok submission is an error "Failed to execute code: …"; the submission succeeds exactly when it is ok with a non-null JSON body |
| Polling.ExecuteCode | frontend/src/lib/Polling.ts:1-20 | the first event is the POST; a failed submission posts once, never polls and swallows its error; otherwise the poll events follow, and only a thrown poll error is swallowed, so the call always returns normally |
| Polling.PendingForever | frontend/src/lib/Polling.ts:33-39 | replies that keep saying "pending" never stop the loop |
| Integration.SubmissionLacksCode | backend/apps/engine/views.py:107-113 | with both services up, the execute endpoint answers the client's own body with 400 "No code provided", whatever the queue would do |
| Integration.SubmissionNeverAccepted | backend/apps/engine/views.py:99-143 | the endpoint never gives the client's body an ok answer; its status is 400, 500 or 503 |
| Integration.SubmitToBackend | frontend/src/lib/Polling.ts:1-20 | the client run against the endpoint posts once, never polls, and swallows "Failed to execute code: <reason of the endpoint's status>" |
| Integration.TaskResultAsPolled | frontend/src/lib/Polling.ts:28-39 | a ready task stops the poll loop with status "completed", a pending task makes it poll again, and a failed task (a 500) makes it throw |
| Integration.PollingStopsAtFirstSettled | backend/apps/engine/views.py:70-83 | polling the task endpoint stops at the first task state that is ready or failed; every earlier state is pending |
| Debounce.Debouncer.constructor | frontend/src/lib/useDebouncer.ts:10 | the hook starts with no stored handle and no pending timer |
| Debounce.Debouncer.AtMostOnePending | frontend/src/lib/useDebouncer.ts:13-19 | at most one timer is pending at any moment |
| Debounce.Debouncer.Call | frontend/src/lib/useDebouncer.ts:12-20 | a call cancels the stored timer exactly when it is still pending, then stores a fresh handle whose only pending timer is due `delay` ms later with this call's arguments |
| Debounce.Debouncer.AdvanceTo | frontend/src/lib/useDebouncer.ts:17-19 | the stored timer fires exactly when it is pending and due, passing its arguments once; the stored handle is kept after firing |
| Debounce.Simulate | frontend/src/lib/useDebouncer.ts:6-23 | over a chronological schedule, the wrapped function receives exactly the arguments of the calls followed by `delay` ms of quiet, in call order, and no more invocations than calls |
| Debounce.BurstInvokesOnce | frontend/src/lib/useDebouncer.ts:13-19 | calls each within `delay` of the previous one give at most one invocation, with the last call's arguments |
| Debounce.SpacedCallsAllFire | frontend/src/lib/useDebouncer.ts:17-19 | calls spaced at least `delay` apart each give their own invocation, in order |
| ValidationSchema.CodeIssues | frontend/src/lib/validationSchema.ts:4-10 | at most one issue, at path `code`; none exactly when the code verdict is present |
| ValidationSchema.InstrumentIssues | frontend/src/lib/validationSchema.ts:11-21 | at most one issue, at path `instrument`; none exactly when an instrument is present and not null |
| ValidationSchema.DateRangeIssues | frontend/src/lib/validationSchema.ts:22-27 | at most one issue, at path `dateRange`; none exactly when the range is present with both ends in order |
| ValidationSchema.CapitalIssues | frontend/src/lib/validationSchema.ts:28 | at most one issue, at path `initialCapital`; none exactly when the capital is present and positive |
| ValidationSchema.InvestmentIssues | frontend/src/lib/validationSchema.ts:29-33 | at most one issue, at path `investmentPerTrade`; none exactly when the investment is in (0, 100000]; above 100000 the refinement's message |
| ValidationSchema.Parse | frontend/src/lib/validationSchema.ts:3-34 | parsing reports no issue exactly when every field is present, the instrument is not null, the range is complete and ordered, the capital is positive and the investment is in (0, 100000]; each issue has a one-segment path |
| ValidationSchema.CodeValidityIgnored | frontend/src/lib/validationSchema.ts:4-10 | a code verdict with `isValid: false` and an error still parses |
| ValidationSchema.NullInstrumentRejected | frontend/src/lib/validationSchema.ts:18-21 | a null instrument is reported as "Please Select an Instrument" at path `instrument` |
| ValidationSchema.DateRangeRule | frontend/src/lib/validationSchema.ts:22-27 | "Please select a valid date range" is reported exactly when an end is missing or the ends are out of order |
| ValidationSchema.InvestmentBoundIsFixed | frontend/src/lib/validationSchema.ts:29-33 | the per-trade bound is the fixed 100000 and not the initial capital: 100000 with capital 1 parses, and 100001 is refused |
| StrategyValidation.Merge | frontend/src/lib/useStrategyValidation.ts:19 | an empty update leaves the base, and an update merged into an empty state is that update |
| StrategyValidation.MergeLaws | frontend/src/lib/useStrategyValidation.ts:19 | the shallow merge ignores an empty update and is idempotent; on each of the five fields a value present in the update wins and an absent one keeps the base's |
| StrategyValidation.FormatIssue | frontend/src/lib/useStrategyValidation.ts:33 | an error line starts with the message and " (" and ends with ")" |
| StrategyValidation.FormatIssues | frontend/src/lib/useStrategyValidation.ts:33 | one line per issue, in issue order |
| StrategyValidation.FormattedPathRecoverable | frontend/src/lib/useStrategyValidation.ts:33 | the path joined by '.' in a line splits back into the issue's path when no segment contains '.' |
| StrategyValidation.ValidationHook.constructor | frontend/src/lib/useStrategyValidation.ts:6-9 | initially the code verdict is valid, nothing else is set, there are no errors, `isValid` holds and `errors` is empty |
| StrategyValidation.ValidationHook.Errors | frontend/src/lib/useStrategyValidation.ts:32-33 | `errors` is empty without stored errors, else the formatted stored issues |
| StrategyValidation.ValidationHook.UpdateCodeValidation | frontend/src/lib/useStrategyValidation.ts:11-16 | only the code field changes; the stored errors are untouched |
| StrategyValidation.ValidationHook.ValidateStrategy | frontend/src/lib/useStrategyValidation.ts:18-29 | the state becomes the merge; afterwards `isValid` holds exactly when the merged state satisfies the schema, and otherwise the errors are its issues |
| RunAttempts.CanRun | frontend/src/lib/useRunAttempts.ts:45-47 | a signed-in session may always run; with a null session a run is allowed exactly below five runs |
| RunAttempts.RemainingRuns | frontend/src/lib/useRunAttempts.ts:49-52 | unlimited exactly for a signed-in session, else max(0, 5 - count): zero exactly from five runs on, never more than five |
| RunAttempts.NullSessionQueriesAgree | frontend/src/lib/useRunAttempts.ts:45-52 | with a null session, `canRun` holds exactly when some runs remain |
| RunAttempts.UndefinedSessionQueriesDisagree | frontend/src/lib/useRunAttempts.ts:45-52 | with an undefined (loading) session, running is allowed with no runs left |
| RunAttempts.RunAttemptsHook.constructor | frontend/src/lib/useRunAttempts.ts:14-32 | the count starts from the stored record or at zero, and a signed-in session resets it |
| RunAttempts.RunAttemptsHook.IncrementCount | frontend/src/lib/useRunAttempts.ts:34-39 | the count rises by exactly one and the reset moment is kept |
| RunAttempts.RunAttemptsHook.ResetCount | frontend/src/lib/useRunAttempts.ts:41-43 | the count is zero, reset now |
| RunAttempts.RunAttemptsHook.SessionChanged | frontend/src/lib/useRunAttempts.ts:28-32 | a signed-in session resets the count; any other session leaves it |
| Config.BackendUrl | frontend/src/lib/config.ts:1-5 | an unset or empty base gives ""; a base ending in '/' is kept; otherwise the base is a prefix of the result, which ends in '/' and is at most one character longer |
| Config.BackendUrlIdempotent | frontend/src/lib/config.ts:3-4 | normalising a normalised URL changes nothing |
| ChartCalculations.FoldBounds | frontend/src/utils/calculations.ts:6-12 | the reduce only widens its accumulator, ends below and above every value, and each bound comes from the accumulator or the values |
| ChartCalculations.GetMinMax | frontend/src/utils/calculations.ts:4-13 | {0, 0} for no data; otherwise min ≤ every equity ≤ max, and both occur in the data |
| ChartCalculations.TickStep | frontend/src/utils/calculations.ts:21-23 | the step is a positive multiple of 5 and at least a fifth of the range |
| ChartCalculations.LoopTickCount | frontend/src/utils/calculations.ts:25-32 | the loop leaves between 1 and 20 ticks, each within range, and it stops at 20 or at the first multiple past the range |
| ChartCalculations.StepTicks | frontend/src/utils/calculations.ts:25-32 | the loop builds 0, -step, -2·step, … with exactly `LoopTickCount` ticks |
| ChartCalculations.LastLoopTick | frontend/src/utils/calculations.ts:34-35 | the last loop tick's magnitude is (n - 1)·step, the value the extra-tick test compares with the range |
| ChartCalculations.CalculateDrawdownTicks | frontend/src/utils/calculations.ts:15-40 | the loop plus the extra tick yields the reference tick list: [0] without a drawdown, else the multiples 0, -step, … of the loop followed by -ceil(range) when the range exceeds the last of them by more than 0.3·step |
| ChartCalculations.ExtraTickBelow | frontend/src/utils/calculations.ts:34-37 | the extra tick -ceil(range) lies below every loop tick |
| ChartCalculations.DrawdownTicksShape | frontend/src/utils/calculations.ts:15-40 | the ticks start at 0, strictly decrease and number 1 to 21; they are [0] for no data or a zero minimum |
| ChartCalculations.CalculateDateTicks | frontend/src/utils/calculations.ts:42-63 | no ticks and 'dd/mm' for no data; else 5 ticks at start + i·span/4 (time-clipped), 'mm/yy' when the span rounds up past 365 days |
| ChartCalculations.YearFormatRule | frontend/src/utils/calculations.ts:50-55 | 'mm/yy' is chosen exactly when the span exceeds 365 days |
| ChartCalculations.DateTicksSpan | frontend/src/utils/calculations.ts:57-60 | the first tick is the earliest date, the last is the latest, and the ticks never go back |
| Backtest.Open | backend/docker/sandbox/strategy.py:154-163 | a new trade has no exit, pnl 0, quantity 100, and entry at the given price |
| Backtest.CloseAt | backend/docker/sandbox/strategy.py:166-169 | closing keeps the entry, sets the exit bar and price, and pnl = (exit - entry) · quantity |
| Backtest.Backtester.constructor | backend/docker/sandbox/strategy.py:42-49 | no trades, and every bar of the equity curve is at the initial capital |
| Backtest.Backtester.RunBacktest | backend/docker/sandbox/strategy.py:143-203 | no signal column raises ValueError and changes nothing; an empty frame raises IndexError; otherwise the trades are the settled result of the bar loop, the equity curve follows the equity rule bar by bar, and TypeError is raised |
| Backtest.Backtester.BarLoop | backend/docker/sandbox/strategy.py:150-174 | after the loop the trades are the bar-by-bar signal handling and every bar's equity follows the equity rule |
| Backtest.Backtester.HandleSignal | backend/docker/sandbox/strategy.py:151-169 | one bar's signal handling: open on a change to 1, close the last open trade on a change to -1 |
| Backtest.Backtester.UpdateEquity | backend/docker/sandbox/strategy.py:171-174 | the bar's equity is the previous bar's plus 100 times the move while the last trade is open; no other bar changes |
| Backtest.Backtester.SettleLast | backend/docker/sandbox/strategy.py:176-181 | the last trade, if open, is closed at the final close |
| Backtest.TradesWellFormed | backend/docker/sandbox/strategy.py:150-169 | every trade was opened where the signal changed to 1, at that close, LONG for 100, with no exit and pnl 0 until a later -1 closes it at that close with pnl (exit - entry)·100; trades are in entry order |
| Backtest.SettleClosesOnlyLast | backend/docker/sandbox/strategy.py:176-181 | settlement keeps the number of trades, touches only the last, and leaves no trade open at the end |
| Backtest.FlatWithoutEntries | backend/docker/sandbox/strategy.py:171-174 | with no change to 1 there are no trades and the equity stays at its start |
| Backtest.EquityLagsTrades | backend/docker/sandbox/strategy.py:171-181 | the curve lags the trades: closes 10, 20, 50 with signals 0, 1, -1 give a trade with pnl 3000 but an equity gain of 1000 |
| Backtest.SupersededTradeStaysOpen | backend/docker/sandbox/strategy.py:164-181 | signals 0, 1, 0, 1 open two trades; the first keeps no exit and pnl 0 |
| Backtest.SupersededNeverClosedLater | backend/docker/sandbox/strategy.py:150-181 | only the last trade is ever closed: in the loop's trades and after settlement, every trade followed by another has no exit or exited before the next entry |
| Backtest.HandleBarExitsBeforeNext | backend/docker/sandbox/strategy.py:151-169 | one bar's signal handling keeps every exit before the next entry |
| Backtest.SettleExitsBeforeNext | backend/docker/sandbox/strategy.py:176-181 | settlement keeps every exit before the next entry |
| Backtest.CountLosers | backend/docker/sandbox/strategy.py:115 | the loser count is 0 exactly when no pnl is negative |
| Backtest.CountWinners | backend/docker/sandbox/strategy.py:94 | the winner count is 0 exactly when no pnl is positive, and all trades exactly when all are |
| Backtest.GrossProfit | backend/docker/sandbox/strategy.py:99 | gross profit is non-negative and positive exactly when some trade wins |
| Backtest.LossSum | backend/docker/sandbox/strategy.py:100 | the summed losses are non-positive and negative exactly when some trade loses |
| Backtest.WinRate | backend/docker/sandbox/strategy.py:91-96 | 0 with no trades, else the winner count divided by the trade count, times 100; in [0, 100], 0 exactly when nothing wins and 100 exactly when every trade wins |
| Backtest.ProfitFactor | backend/docker/sandbox/strategy.py:98-102 | infinite exactly when no trade loses; otherwise gross profit divided by the absolute summed losses, non-negative and positive exactly when some trade wins |
| Backtest.Divide | backend/docker/sandbox/strategy.py:96 | true division by a positive count: the quotient times the divisor is the dividend, with the dividend's sign |
| Backtest.AvgTradePnl | backend/docker/sandbox/strategy.py:104-107 | 0 with no trades, else the pnl sum divided by the trade count |
| Backtest.AvgTradePnlWithin | backend/docker/sandbox/strategy.py:104-107 | the mean pnl lies between any bounds of the pnls |
| Backtest.AvgWinnerPnl | backend/docker/sandbox/strategy.py:109-111 | 0 with no winner, else gross profit divided by the winner count; non-negative, and positive exactly when some trade wins |
| Backtest.GrossProfitBounds | backend/docker/sandbox/strategy.py:99 | bounds on the winning pnls, times the winner count, bound the gross profit |
| Backtest.AvgWinnerPnlWithin | backend/docker/sandbox/strategy.py:109-111 | the mean winning pnl lies between any bounds of the winning pnls |
| Backtest.AvgLoserPnl | backend/docker/sandbox/strategy.py:114-116 | 0 with no loser, else the summed losses divided by the loser count; non-positive, and negative exactly when some trade loses |
| Backtest.LossSumBounds | backend/docker/sandbox/strategy.py:115-116 | bounds on the losing pnls, times the loser count, bound their sum |
| Backtest.AvgLoserPnlWithin | backend/docker/sandbox/strategy.py:114-116 | the mean losing pnl lies between any bounds of the losing pnls |
| Backtest.RunningMax | backend/docker/sandbox/strategy.py:65 | the expanding maximum is one of the values so far and bounds all of them |
| Backtest.DrawdownCurve | backend/docker/sandbox/strategy.py:64-68 | one value per bar, undefined exactly where the running maximum is 0 |
| Backtest.DrawdownRelative | backend/docker/sandbox/strategy.py:64-68 | a defined drawdown times the running maximum is the bar's distance below that maximum |
| Backtest.DrawdownBounds | backend/docker/sandbox/strategy.py:64-68 | for a curve starting at a positive capital every drawdown is defined and at most 0, 0 exactly at a running peak, and above -1 exactly where the equity is positive |
| Backtest.DrawdownAt | backend/docker/sandbox/strategy.py:64-68 | the same four facts for one bar |
| Backtest.Drawdowns | backend/docker/sandbox/strategy.py:64-68 | for a curve starting positive the drawdown values are the curve's, all defined |
| Backtest.MinDrawdownBounds | backend/docker/sandbox/strategy.py:87-88 | the least drawdown is at most 0, and above -1 exactly when the whole curve stays positive |
| Backtest.DrawdownsAtPeak | backend/docker/sandbox/strategy.py:64-68 | every drawdown is non-positive, and zero exactly where the equity equals its running maximum |
| Backtest.MaxDrawdownPct | backend/docker/sandbox/strategy.py:87-88 | NaN (None) exactly for an empty curve; otherwise the least drawdown times 100 (no bar's drawdown in percent is below it and some bar's equals it), at most 0, and above -100 exactly when the equity never reaches 0 or below |
| Backtest.LeastInPercent | backend/docker/sandbox/strategy.py:88 | the least value times 100 is some value times 100 and bounds all of them from below |
| Backtest.LosingLongBelowCapital | backend/docker/sandbox/strategy.py:171-174 | closes 1500, 1500, 400 with signals 0, 1, 1 take the curve to -10000 and the maximum drawdown to -110% |
| Backtest.BelowCapitalDrawdown | backend/docker/sandbox/strategy.py:64-68 | the curve 100000, 100000, -10000 has drawdowns 0, 0, -1.1 and a maximum drawdown of -110% |
| Backtest.Calmar | backend/docker/sandbox/strategy.py:123-128 | for any curve: infinite on the zero-drawdown guard, past the guard TypeError, and TypeError for an empty curve (NaN is not 0) |
| Backtest.CalmarInfiniteIffAtPeak | backend/docker/sandbox/strategy.py:123-128 | for a curve starting positive, Calmar is infinite exactly when the curve never falls below its running peak |
| Backtest.CalmarAtZero | backend/docker/sandbox/strategy.py:123-128 | for a curve starting positive, Calmar is infinite exactly when the least drawdown is 0 |
| Backtest.NegativeCapitalCalmarInfinite | backend/docker/sandbox/strategy.py:64-68 | with a negative capital the drawdowns turn positive: the curve -5, -7 has drawdown 0.4 at its second bar and an infinite Calmar |
| SandboxExecute.Visit | backend/docker/sandbox/execute.py:20-28 | an import gives the import message and a call of a bare forbidden name its call message; a name passes; any refusal is one of the two messages |
| SandboxExecute.VisitAll | backend/docker/sandbox/execute.py:28 | no children pass, a refusing first child decides, and any refusal is one of the two messages |
| SandboxExecute.VisitRefusesExactlyOffending | backend/docker/sandbox/execute.py:20-32 | the check refuses a tree exactly when an import, or a call of bare `exec`/`eval`/`open`, occurs anywhere in it, with one of the two refusal messages |
| SandboxExecute.VisitAllRefusesExactlyOffending | backend/docker/sandbox/execute.py:28 | the generic visit refuses a list of children exactly when one of them holds an offending node |
| SandboxExecute.AttributeCallPasses | backend/docker/sandbox/execute.py:26 | `x.eval()` is not refused |
| SandboxExecute.ReferencePasses | backend/docker/sandbox/execute.py:25-28 | a forbidden name that is not called is not refused |
| SandboxExecute.NestedCallRefused | backend/docker/sandbox/execute.py:25-28 | `print(eval(s))` is refused with "Call to 'eval' is not allowed" |
| SandboxExecute.RunSandbox | backend/docker/sandbox/execute.py:62-98 | a missing or unreadable file ends with 2 and no output; a syntax error or refused tree with 1; an `exec` that raises, a missing or uncallable `run_backtest`, a call that raises or a result that does not encode end with 1 and no output; a `SystemExit` from `exec` or from `run_backtest` ends with the user's status and no output, since the `Exception` handler does not catch it; any status other than 0, 1, 2 comes from such an exit; status 0 with output exactly when the tree passes, the code runs, `run_backtest` is callable and its result encodes, and then that result is the output |
| SandboxExecute.ExitZeroWritesNothing | backend/docker/sandbox/execute.py:79-96 | a user `exit(0)` in the code or in `run_backtest` ends with status 0 and nothing written |
| SandboxExecute.RefusedCodeNeverRuns | backend/docker/sandbox/execute.py:67-71 | refused code is never executed: the exit does not depend on the execution or run outcomes, and reports the refusal |
| EngineViews.CheckRedis | backend/apps/engine/views.py:19-31 | up exactly on a reply, down with the error text on a connection error, and uncaught for any other exception |
| EngineViews.CheckCelery | backend/apps/engine/views.py:33-42 | up exactly when some worker replied; "No workers available" when none did |
| EngineViews.HealthCheck | backend/apps/engine/views.py:48-64 | 200 exactly when both services are up, else 503; each service is reported from its own check |
| EngineViews.HealthLabelsIndependent | backend/apps/engine/views.py:52-61 | the redis report does not depend on the celery check |
| EngineViews.TaskResult | backend/apps/engine/views.py:70-83 | "completed" with the result when ready, "pending" otherwise; a failed task is an unhandled error |
| EngineViews.TaskStatusNeverError | backend/apps/engine/views.py:73-83 | the reported status is never "error" |
| EngineViews.CheckServices | backend/apps/engine/views.py:89-97 | operational exactly when both are up; a redis failure is reported first |
| EngineViews.StatusUrl | backend/apps/engine/views.py:130 | the status URL is "/engine/task/" + id + "/" |
| EngineViews.Execute | backend/apps/engine/views.py:99-143 | a down service gives 503 with its message before the body is read; 202 exactly when services are up, `code` is present and truthy and the task is queued, with its id and status URL |
| EngineViews.ServicesDownIgnoresRequest | backend/apps/engine/views.py:100-105 | with a service down the answer does not depend on the body or the queue |
| EngineViews.MissingCodeRefused | backend/apps/engine/views.py:107-113 | a missing or falsy `code` gives 400 "No code provided" |
| EngineViews.EnqueueFailures | backend/apps/engine/views.py:133-143 | an operational queue error gives 503, any other gives 500 |
| Authentication.Token | backend/apps/Authentication.py:17 | the token is the second space-separated field: the text after "Bearer " up to the next space |
| Authentication.TokenOfBearer | backend/apps/Authentication.py:14-17 | "Bearer <t>" yields t when t holds no space |
| Authentication.WithEmail | backend/apps/Authentication.py:29 | the user lookup finds exactly the users with that e-mail |
| Authentication.Authenticate | backend/apps/Authentication.py:12-39 | no attempt exactly without a bearer header; a verifier ValueError is "Invalid token"; any other verifier failure, and more than one user with the verified e-mail, is "Authentication failed"; success needs a unique user with the verified, non-empty e-mail; "User not found" exactly when no user has it |
| Authentication.MissingEmailFails | backend/apps/Authentication.py:25-39 | claims without an e-mail surface as "Authentication failed" |
| Authentication.UniqueUserAuthenticates | backend/apps/Authentication.py:29-30 | a verified e-mail held by exactly one user authenticates that user |
| MarketData.Upper | backend/apps/market_data/views.py:24 | upper-casing keeps the length and maps each ASCII lower-case letter up |
| MarketData.RemoveCsv | backend/apps/market_data/views.py:24 | removing ".csv" never lengthens the name (its exact effect is stated by RemoveCsvNone and RemoveCsvStem) |
| MarketData.Symbol | backend/apps/market_data/views.py:24 | the symbol is no longer than the name and holds no ASCII lower-case letter |
| MarketData.SymbolOfCsvFile | backend/apps/market_data/views.py:24 | the symbol of "<stem>.csv" is the upper-cased stem when the stem holds no ".csv" |
| MarketData.RemoveCsvStem | backend/apps/market_data/views.py:24 | removing ".csv" from "<stem>.csv" gives back the stem when the stem holds no ".csv" |
| MarketData.RemoveCsvNone | backend/apps/market_data/views.py:24 | a name without ".csv" is left as it is by the removal |
| MarketData.Step | backend/apps/market_data/views.py:19-34 | an entry makes the loop raise exactly when it is not an object or its name is not a string and `"_" in name` does not hold; a stored entry upserts its symbol, any other changes nothing |
| MarketData.StockTable.FetchAndStore | backend/apps/market_data/views.py:11-42 | a failed request gives 500 "Failed to fetch data: …" and changes nothing; otherwise the table is the loop's upserts, 200 when the loop finishes, and 500 with the earlier upserts kept when an entry raises |
| MarketData.IngestStopped | backend/apps/market_data/views.py:41-42 | once an entry raises, later entries change nothing |
| MarketData.IngestKeys | backend/apps/market_data/views.py:19-34 | after the loop a symbol is in the table exactly when it was before or a stored entry has it, so underscore names leave no trace |
| MarketData.IngestKeepsUntouched | backend/apps/market_data/views.py:19-34 | finished or not, a symbol in the table that no stored entry has keeps its row |
| MarketData.IngestLastWins | backend/apps/market_data/views.py:25-32 | the last stored entry with a symbol wins: its row names that file, with both dates None |
| MarketData.UnderscoreSkipped | backend/apps/market_data/views.py:22-34 | an entry whose name has an underscore, or is a list or dictionary holding "_", changes nothing |
| MarketData.NonStringNameRaises | backend/apps/market_data/views.py:22-24 | a name that is neither a string nor a container holding "_" stops the loop with the table kept |
| MarketData.MissingNameStoredEmpty | backend/apps/market_data/views.py:20-32 | an entry without a name is stored under the empty symbol |
| CeleryRetry.FailuresBefore | backend/config/celery.py:29-33 | the failures counted before the first success are all failures, at most five, and the attempt after them (if any) connects |
| CeleryRetry.SetupPeriodicTasks | backend/config/celery.py:25-40 | the loop makes k + 1 attempts when attempt k is the first success, else five; it raises exactly after five failures; it sleeps 1, 2, 4, … once per retried failure and prints one line per attempt |
| CeleryRetry.DelaysSum | backend/config/celery.py:39-40 | the first m delays total 2^m - 1 seconds |
| CeleryRetry.BackoffTotals | backend/config/celery.py:27-40 | k < 5 failures before a success give k sleeps totalling 2^k - 1 seconds; five failures sleep 15 seconds in all |

## Left out

- Rendering, layout, charts and every React component; the hooks are modelled as their state cells and updaters.
- Real transport, timers and storage: `fetch`, `setTimeout`/`clearTimeout`, `localStorage`, Redis, the Celery control channel and queue, the result backend, the token verifier and the GitHub listing request are all parameters (their outcomes), and the sandbox's file reads, `ast.parse`, `exec` and the call of `run_backtest` are outcomes given as inputs.
- Logging and `console.log`/`print` output, except where the output is the result: the sandbox's written result and refusal line, and the retry loop's printed lines. The market-data loop's "Skipping file" line is not modelled.
- Polling.PollTaskStatus: the replies are a finite sequence; when it runs out with no stopping reply the client would go on polling, reported as `StillPolling`.
- Polling.Classify: a reply that is not JSON, or is `null`, is a thrown error with a fixed message; the exact wording of the JavaScript runtime's errors is not modelled.
- Polling.Submitted: a `fetch` that rejects on a network error is not a separate case; it is represented by the non-ok or non-JSON reply cases, which throw as it does and are swallowed alike by `executeCode`.
- StrategyValidation.Merge: an update field is either absent or has a value; a key present with the value `undefined` (which the spread copies, so zod then reports it as "Required") is modelled as absent, keeping the base's value. The modelled callers never pass such a key.
- Debounce.Simulate: the runtime's timer queue is abstracted to a logical clock that the schedule advances; timers due at the same moment as a call fire before it.
- RunAttempts: the stored record is taken as already parsed; malformed JSON in storage is not modelled.
- ChartCalculations: equity values and timestamps are integers and drawdowns exact reals; floating-point rounding, `NaN`, and JavaScript `Date` objects (the time clip is truncation) are not modelled.
- Backtest: prices, pnl and equity are integers and bars are positions, so pandas' label-versus-position indexing and float arithmetic are not modelled; the trade list is reassigned rather than mutated in place, so aliasing of trade objects is not modelled.
- Backtest.Backtester.RunBacktest: `generate_signals` is abstract; its outcome is the signal column given as a parameter, assumed to be as long as the frame.
- Backtest.MaxDrawdownPct: requires the curve to start at a positive capital, so every running maximum is positive; for a zero or negative capital pandas mixes NaN, infinities and positive drawdowns, which only Backtest.Calmar models.
- Backtest.DrawdownBounds: states its bounds only for a curve starting at a positive capital, for the same reason.
- StrategyValidation.ValidationHook.ValidateStrategy: each updater is modelled as seen by the next render. When `updateCodeValidation` (a functional update) and `validateStrategy` (which merges the state captured by the render and stores a plain value) run in the same render, the later store overwrites the code update and the parse used the old code; this lost update is not modelled.
- SandboxExecute.RunSandbox: a `SystemExit` status is taken as the process's exit status as given; how `sys.exit` turns a non-integer argument into a status, and the truncation of the status to 8 bits, are not modelled. What the user code prints itself is not part of the output.
- Sharpe ratio, Sortino ratio, annualised volatility, total return, total return percentage and maximum drawdown in currency are not modelled: they depend on floating-point statistics or, for the total-return methods, only raise (which `RunBacktest` states).
- SandboxExecute: only the node kinds the check distinguishes are kept; the double JSON encoding of the result is one opaque string.
- EngineViews: Django's error page for an uncaught exception is a 500 with no body; the retry policy of the enqueue call is inside the queue outcome.
- Authentication: `User.objects.get` is a lookup in a list of users; the verifier's network and signature checks are inside its outcome.
- MarketData.StockTable.FetchAndStore: the stock table is a map keyed by symbol; the `CharField(max_length=10)` limit on the symbol column is not modelled, so on a database that enforces it a longer symbol would make `update_or_create` raise (ending with "An unexpected error occurred: …") where the model stores it.
- MarketData.Upper: upper-cases ASCII letters only; Python's full Unicode case mapping is not modelled.
- CeleryRetry: `on_connection_error`, the broker transport options and `debug_task` are configuration and logging, not modelled; the sleeps are recorded, not performed.
