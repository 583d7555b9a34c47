# Verified cores of the trading platform

A Dafny model of the parts of the platform whose guarantees hold over whole runs, and proofs of those guarantees.
`dafny verify dfyconfig.toml` checks everything.

| files | what they model |
|---|---|
| `Options`, `Clock` | values that may be absent, and seconds |
| `MarketData`, `BatchBuffer`, `TimescaleWriter` | the recorder's data, its locked buffer and its database writer |
| `RecorderProtocol`, `RecorderInvariant`, `RecorderGuarantees`, `RecorderShutdown` | many Add callers, one flusher, Stop and cancellation over one buffer, with the writer as flush callback: the steps, what they keep, what follows, and what a shutdown can leave behind |
| `TokenBucket` | the order service's token bucket in Redis |
| `AuthLimiter`, `FixedWindow` | the login limiter: in memory with lockout, and the Redis script |
| `MapSum`, `Portfolio`, `PortfolioManager` | the backtest account |
| `PositionMonitor` | the live position monitor, and its agreement with the backtest account |
| `InitialOrders`, `StrategyExecutor` | the initial orders of a strategy against its risk limits |
| `EventLoop` | the backtest event loop over a binary heap |
| `OrderLifecycle`, `OrderExecutor` | Execute and Cancel interleaving on one order row |
| `Base64`, `Scanning`, `PasswordHash` | the encoded password hash |
| `TelegramEscape` | escaping of message text |
| `Drawdown` | maximum drawdown |

Concurrent code is a step relation: one action per lock region, channel operation, database statement or callback
boundary, and a run is any sequence of enabled actions. Objects that change in place are classes whose methods are
proved against the functions the theorems are about. Times are integer nanoseconds, money is `real`, and what the
outside world answers (clock, database, broker, Redis failures, random bytes) is a parameter of the step it affects.

Where the code and its documentation differ, the model follows the code:

- `Cancel` reads the row and writes it later without comparing, and `Execute` writes its statuses unconditionally, so a
  cancellation can be undone (`CancelledAbsorbsIff`, `EarlyCancelIsLost`) and a fill overwritten (`FilledLastsIff`).
- A Cancel that the broker refuses still marks the order CANCELLED (`CancelDespiteBroker`, `WithdrawnForSureIff`).
- The Redis login script gets its window in truncated seconds (`TwiceTheLimitIff`).
- The position limit of initial orders is taken against current holdings, with an empty position map
  (`EqualOrderNeedsWholePortfolio`).
- Stop promises to flush what remains, but an Add already past its check can come too late (`StopDrainsIff`), and `Add`
  accepts messages after the flusher has left through the context (`CancelStrandsLaterAdds`).
- The service shuts down by cancelling the context its callback writes with, so the final flush cannot store anything
  (`CancelLosesUnwritten`).
- A failed write of the position table rejects an order whose shares are already held (`HoldingsAreAcceptedOrdersIff`).
- The cleanup of the in-memory limiter forgets failures that no recent check backs up (`FailuresAddIff`).
- The daily P&L of the monitor is never reset (`RunFieldsAgree`).
- Telegram escaping leaves backslashes alone (`ReadsLiterallyIff`).

## Model

| member | source | states |
|---|---|---|
| `RecorderGuarantees.AcceptedInOrder` | services/data-recorder-service/internal/buffer/batch_buffer.go:109-230 | In every reachable state the accepted calls are the batches handed to the callback in order (retries counted once), then the batch in flight, then the buffer; the buffer holds at most twice `maxSize`, and the message counter is the number accepted |
| `RecorderGuarantees.AcceptedExactlyWhenLogged` | services/data-recorder-service/internal/buffer/batch_buffer.go:109-140 | An Add has returned success if and only if its message is in the accepted log, and no call is logged twice |
| `RecorderGuarantees.WakeupNeverLost` | services/data-recorder-service/internal/buffer/batch_buffer.go:125-137 | Whenever the buffer holds at least `maxSize` messages, a token is in the wake-up channel or the flusher has taken one and not yet locked; this also holds during shutdown |
| `RecorderGuarantees.CountersAreExact` | services/data-recorder-service/internal/buffer/batch_buffer.go:195-206 | The flush, error and drop counters equal what the logs say; the final flush is in none of the flush counters, and a running callback is not yet an error |
| `RecorderGuarantees.SizeIsExact` | services/data-recorder-service/internal/buffer/batch_buffer.go:123-124 | The reported size is the number of buffered messages as long as it fits 32 bits |
| `RecorderGuarantees.AddAcceptedIff` | services/data-recorder-service/internal/buffer/batch_buffer.go:115-137 | Under the lock an Add succeeds if and only if the buffer holds fewer than twice `maxSize`, and a wake-up appears exactly from `maxSize` on |
| `RecorderGuarantees.TickTakesIff` | services/data-recorder-service/internal/buffer/batch_buffer.go:161-189 | At a tick the whole non-empty buffer becomes the batch in flight if and only if it holds at least `maxSize` messages or the last take is at least a timeout ago; otherwise nothing changes |
| `RecorderGuarantees.WakeupTakes` | services/data-recorder-service/internal/buffer/batch_buffer.go:102-103 | After a wake-up the whole buffer is taken whatever its size and age |
| `RecorderGuarantees.RequestedFlushTakes` | services/data-recorder-service/internal/buffer/batch_buffer.go:242-248 | A requested flush takes the whole buffer at the next look |
| `RecorderGuarantees.NothingOutwaitsTimeout` | services/data-recorder-service/internal/buffer/batch_buffer.go:161-189 | On every run, once the flusher has looked at the buffer at any moment a timeout or more after some time, everything accepted by that time has been taken, in order |
| `RecorderGuarantees.FinalFlushAttempts` | services/data-recorder-service/internal/buffer/batch_buffer.go:222-230 | The final flush goes on with the same batch until an attempt succeeds or three have failed |
| `RecorderGuarantees.StopAccounting` | services/data-recorder-service/internal/buffer/batch_buffer.go:209-240 | When Stop has returned on an uncancelled context, what was accepted but not handed over comes only from Adds past the `running` check when Stop flipped it, at most one message each; with none in flight the buffer is empty |
| `RecorderShutdown.StopDrainsIff` | services/data-recorder-service/internal/buffer/batch_buffer.go:209-240 | In any reachable running, uncancelled state, every return of Stop is sure to find the buffer empty if and only if no Add is past the `running` check at the moment Stop flips it |
| `RecorderShutdown.StopCanStrand` | services/data-recorder-service/internal/buffer/batch_buffer.go:109-140 | For each Add past that check, wherever the flusher is and whichever answer its callbacks get, there is a continuation on which the Add reports success and its message is left in the buffer when Stop returns |
| `RecorderShutdown.CancelDrainsIff` | services/data-recorder-service/cmd/server/main.go:268-304 | For a caller that lets no further Add enter, as the service does: cancelling the context is sure to have every accepted message handed over if and only if no Add is past the `running` check at that moment |
| `RecorderShutdown.CancelCanStrand` | services/data-recorder-service/internal/buffer/batch_buffer.go:89-92 | For each Add past that check there is a continuation without further Adds on which it reports success after the flusher has taken its last batch |
| `RecorderShutdown.CancelLosesUnwritten` | services/data-recorder-service/cmd/server/main.go:143-148 | Since the callback writes with the cancelled context, every state reached after a cancel has the tables as they were, or as the callback already at work left them: the final flush stores nothing |
| `RecorderShutdown.CancelStoresNothingIff` | services/data-recorder-service/cmd/server/main.go:268-304 | After a cancel the tables are sure to stay as they are if and only if no callback entered before it is still at work with rows to store and attempts to make |
| `RecorderShutdown.CancelStrandsLaterAdds` | services/data-recorder-service/internal/buffer/batch_buffer.go:89-114 | After shutdown through the context, `running` is still set, so a later Add is accepted into a buffer nobody will flush |
| `RecorderShutdown.LateMessagesStay` | services/data-recorder-service/internal/buffer/batch_buffer.go:209-230 | Once the flusher has taken its last batch, no continuation of the run removes anything from the buffer |
| `RecorderGuarantees.StoredExactlyOnce` | services/data-recorder-service/internal/buffer/batch_buffer.go:195-230 | The stored tick and order-book rows are, in order, those of the batches whose callback returned success, each accepted call at most once, across the writer's attempts and the final-flush retries; if every batch succeeded and nothing is pending they are the rows of everything accepted |
| `RecorderInvariant.InvariantStep` | services/data-recorder-service/internal/buffer/batch_buffer.go:84-240 | Each of the nineteen atomic steps of the adders, the flusher, Stop and cancellation keeps order, bounds, wake-up, storage, counters, call identities and shutdown bookkeeping |
| `BatchBuffer.Buffer.constructor` | services/data-recorder-service/internal/buffer/batch_buffer.go:60-81 | A new buffer is empty and running, with 1000 messages and five seconds for non-positive settings |
| `BatchBuffer.Buffer.EnterAdd` | services/data-recorder-service/internal/buffer/batch_buffer.go:109-114 | A closed buffer refuses the message and counts it dropped |
| `BatchBuffer.Buffer.AddUnderLock` | services/data-recorder-service/internal/buffer/batch_buffer.go:116-140 | Refuses and counts a drop at twice the threshold; otherwise appends, counts, and leaves a wake-up pending at the threshold without taking one away |
| `BatchBuffer.Buffer.SendToken` | services/data-recorder-service/internal/buffer/batch_buffer.go:243-248 | Flush leaves exactly one wake-up pending, whether or not one was |
| `BatchBuffer.Buffer.CheckAndTake` | services/data-recorder-service/internal/buffer/batch_buffer.go:161-189 | Takes the whole buffer if forced, full or timed out, and nothing otherwise |
| `BatchBuffer.Buffer.TakeRemaining` | services/data-recorder-service/internal/buffer/batch_buffer.go:209-220 | The final flush takes the whole buffer and leaves `lastFlow` alone |
| `BatchBuffer.Buffer.SwapRunning` | services/data-recorder-service/internal/buffer/batch_buffer.go:233-236 | Exactly the caller that finds the buffer running wins the right to stop it |
| `TimescaleWriter.Writer.WriteMessages` | services/data-recorder-service/internal/writer/timescale_writer.go:149-197 | The batch is stored completely and once if some attempt within `maxRetries` commits, and not at all otherwise; the returned error, the insert count and the error count agree with that, and an empty batch succeeds even on a closed writer |
| `TimescaleWriter.Writer.WriteBatch` | services/data-recorder-service/internal/writer/timescale_writer.go:200-226 | One transaction stores all its rows or none, and reports success exactly when every stage it needs succeeded |
| `TimescaleWriter.Writer.SplitByType` | services/data-recorder-service/internal/writer/timescale_writer.go:161-176 | The loop separates ticks from order books in order, skipping messages without a payload |
| `MarketData.TicksComplete` | services/data-recorder-service/internal/writer/timescale_writer.go:165-176 | Every tick message with a payload has its tick in the split, at the position given by the number of such messages before it, and the split holds nothing else |
| `MarketData.OrderBooksComplete` | services/data-recorder-service/internal/writer/timescale_writer.go:165-176 | The same for order books |
| `TimescaleWriter.GoodAttemptStores` | services/data-recorder-service/internal/writer/timescale_writer.go:178-192 | An attempt within the limit at which every stage succeeds stores the whole batch, whatever the others did |
| `TimescaleWriter.FailuresStoreNothing` | services/data-recorder-service/internal/writer/timescale_writer.go:178-197 | If every attempt within the limit fails at a stage the batch needs, the tables stay as they were and the error is returned |
| `TokenBucket.WindowBoundNeverExpiring` | services/order-management-service/internal/ratelimit/limiter.go:102-132 | On any run with a non-decreasing clock, the tokens granted from call i through call j are at most burst plus rate times the seconds between them (one burst more per Reset), in spite of floor rounding and of denials moving the timestamp |
| `TokenBucket.WindowBoundIff` | services/order-management-service/internal/ratelimit/limiter.go:102-132 | With the 60-second expiry the same bound holds on every run if and only if burst is at most 60 times the rate |
| `TokenBucket.ExpiryInvisibleIff` | services/order-management-service/internal/ratelimit/limiter.go:107-130 | A bucket whose key expires after 60 idle seconds answers every run like one that never expires if and only if burst is at most 60 times the rate |
| `TokenBucket.ExpiryUnobservable` | services/order-management-service/internal/ratelimit/limiter.go:107-130 | The refinement behind it: two stores read alike stay so through any further requests and give the same answers and the same total |
| `TokenBucket.GrantedWithinPotential` | services/order-management-service/internal/ratelimit/limiter.go:113-131 | From any sound state, what is granted is paid for out of the unrounded content of the bucket plus the time that passes |
| `TokenBucket.FastPollingStarves` | services/order-management-service/internal/ratelimit/limiter.go:113-131 | Requests closer together than one token takes to accrue are granted no more than the tokens at the start, however long they go on, since every denial discards the fraction |
| `TokenBucket.StarvesIff` | services/order-management-service/internal/ratelimit/limiter.go:113-131 | From an empty bucket, one-token requests in clock order are granted nothing at all if and only if no gap between them is worth a token |
| `TokenBucket.AllowedIff` | services/order-management-service/internal/ratelimit/limiter.go:102-132 | On a stored, unexpired bucket a request is allowed if and only if it is between one and burst and the tokens plus what has accrued since the last update, unrounded, cover it |
| `TokenBucket.MissingIsFull` | services/order-management-service/internal/ratelimit/limiter.go:107-111 | A bucket never used, reset or expired allows exactly the requests between one and burst |
| `TokenBucket.DenialIsFree` | services/order-management-service/internal/ratelimit/limiter.go:127-131 | After a denied request all requests of the same instant are answered as if it had not been made |
| `TokenBucket.GrantSpends` | services/order-management-service/internal/ratelimit/limiter.go:121-126 | After a granted request of n tokens, one of m tokens at the same instant is allowed if and only if one of n + m would have been instead |
| `TokenBucket.RemainingIsExact` | services/order-management-service/internal/ratelimit/limiter.go:160-183 | The script behind GetRemaining returns n or more exactly when AllowN(n) at that instant would be allowed, for admissible n |
| `TokenBucket.Limiter.NewLimiter` | services/order-management-service/internal/ratelimit/limiter.go:26-52 | Non-positive rates are refused; a non-positive burst becomes the rate |
| `TokenBucket.Limiter.AllowN` | services/order-management-service/internal/ratelimit/limiter.go:60-133 | The argument checks and the script have the effect of one bucket step on this key and none on any other |
| `TokenBucket.Limiter.Clear` | services/order-management-service/internal/ratelimit/limiter.go:154-157 | Reset forgets this key and no other |
| `TokenBucket.Limiter.GetRemaining` | services/order-management-service/internal/ratelimit/limiter.go:164-183 | Returns the level the next AllowN would see and changes nothing |
| `AuthLimiter.WindowRespectedIff` | services/user-service/internal/middleware/rate_limiter.go:240-275 | No interval as short as the window admits more than the limit (or one, for limits below one), whatever failures, clears and cleanups interleave: on all runs if and only if the window is at most 24 hours |
| `AuthLimiter.IntervalBound` | services/user-service/internal/middleware/rate_limiter.go:240-275 | The same from any sound state, not only from a fresh identifier |
| `AuthLimiter.ForgettingOverAdmits` | services/user-service/internal/middleware/rate_limiter.go:344-355 | For each window longer than 24 hours, a run on which the cleanup lets one check too many through |
| `AuthLimiter.CheckOutcomeIff` | services/user-service/internal/middleware/rate_limiter.go:240-275 | A check is answered Locked exactly before the end of the lock, and admitted exactly if the identifier is new, or not locked and either paused for more than the window or below the limit |
| `AuthLimiter.SteadyChecks` | services/user-service/internal/middleware/rate_limiter.go:259-274 | Of checks that keep coming within the window exactly what is left of the limit is admitted, and the first check after a longer pause is admitted again |
| `AuthLimiter.LockoutBlocks` | services/user-service/internal/middleware/rate_limiter.go:312-328 | The failure that reaches the limit, after checks, failures and cleanups none of which forgot the earlier ones, makes every check of the next `lockoutTime` fail, whatever checks, failures, clears and cleanups come in between |
| `AuthLimiter.LockHolds` | services/user-service/internal/middleware/rate_limiter.go:254-257 | An identifier locked until some time rejects every check before it: nothing shortens a lock |
| `AuthLimiter.LockEnds` | services/user-service/internal/middleware/rate_limiter.go:254-257 | Unless the failures reach the limit again, no check from the end of the lock on is answered Locked, whatever comes in between |
| `AuthLimiter.FailuresAddIff` | services/user-service/internal/middleware/rate_limiter.go:312-355 | Below the limit and without clears, the failure counter grows by every failure of a run if and only if no cleanup drops the entry while failures are on record, that is, over a day after its last use with no lock running |
| `AuthLimiter.DailyChecksRemember` | services/user-service/internal/middleware/rate_limiter.go:344-355 | If every cleanup comes within a day of some check of the identifier, none of them does, so all failures count |
| `AuthLimiter.Limiter.CheckLocal` | services/user-service/internal/middleware/rate_limiter.go:240-275 | One check has the specified effect and answer, and touches no other identifier |
| `AuthLimiter.Limiter.RecordFailedLocal` | services/user-service/internal/middleware/rate_limiter.go:312-328 | One failure has the specified effect, creating the entry if it is missing |
| `AuthLimiter.Limiter.ClearFailedAttempts` | services/user-service/internal/middleware/rate_limiter.go:331-341 | Resets the failure counter of a known identifier and neither lock nor attempts |
| `AuthLimiter.Limiter.CleanupExpired` | services/user-service/internal/middleware/rate_limiter.go:344-355 | Removes exactly the entries idle for over 24 hours and not locked |
| `FixedWindow.TwiceTheLimitIff` | services/user-service/internal/middleware/rate_limiter.go:215-234 | Under the script any interval as short as the configured window admits at most twice the limit, on all runs if and only if the limit is not positive, or the window is negative, or the window is at least a second and it is a whole number of seconds or the limit is one |
| `FixedWindow.IntervalBound` | services/user-service/internal/middleware/rate_limiter.go:215-234 | What an interval of any length can admit: whole windows, or the rest of a window and then whole ones |
| `FixedWindow.WithinBudget` | services/user-service/internal/middleware/rate_limiter.go:215-234 | The same from any state of the key, by what is left of the current window |
| `FixedWindow.CheckOutcomeIff` | services/user-service/internal/middleware/rate_limiter.go:202-237 | A check that sees the lockout key is refused, one whose script fails is let through, both leaving the counter alone; any other counts and is admitted if and only if the limit was not yet reached in its window |
| `FixedWindow.WindowExact` | services/user-service/internal/middleware/rate_limiter.go:215-234 | Within one window exactly what is left of the limit is admitted, and refused checks do not prolong it |
| `FixedWindow.StraddleOverAdmits` | services/user-service/internal/middleware/rate_limiter.go:215-226 | For a window with a fraction of a second, a run that admits more than twice the limit within the window, since the script is given truncated seconds |
| `FixedWindow.DefaultAdmitsTen` | services/user-service/internal/middleware/rate_limiter.go:133-142 | As the service configures it, at most ten admitted checks in any minute |
| `Portfolio.EquityIdentity` | services/backtesting-service/src/engine/portfolio.py:64-191 | On every run and for every price map, equity is initial cash plus total P&L minus the commissions paid on buys |
| `Portfolio.CostBasisConserved` | services/backtesting-service/src/engine/portfolio.py:87-140 | An executed buy adds exactly the price paid for the shares to the total cost basis, averaging included; a sell removes its quantity at average cost |
| `Portfolio.HistoryReproducesAccount` | services/backtesting-service/src/engine/portfolio.py:64-155 | Replaying the trade history from the initial cash, without knowing the rates, gives back cash, positions, realized P&L, total commission and the history |
| `Portfolio.ChargesFollowRates` | services/backtesting-service/src/engine/portfolio.py:74-130 | On every run, from the rates and the values traded: cash is the initial cash less (1 + c) times the purchases plus (1 - c - t) times the sales, the commissions on buys are c times the purchases, and all commissions c times both |
| `Portfolio.EquityAtCost` | services/backtesting-service/src/engine/portfolio.py:157-170 | Without any price given, equity is cash plus the cost of the positions |
| `Portfolio.EquityMovesWithPrice` | services/backtesting-service/src/engine/portfolio.py:157-170 | A change of one price moves equity by the shares held of that symbol times the change, and by nothing else |
| `Portfolio.CashNonNegativeIff` | services/backtesting-service/src/engine/portfolio.py:79-130 | Cash stays non-negative on every run if and only if commission and tax together are at most one |
| `Portfolio.ExcessiveChargesOverdraw` | services/backtesting-service/src/engine/portfolio.py:122-129 | For any rates above that, a run that ends with negative cash: a sell is never checked against cash |
| `Portfolio.RefusedIff` | services/backtesting-service/src/engine/portfolio.py:71-120 | A well-formed buy is refused if and only if the cash is less than the shares and their commission, a sell if and only if fewer shares are held; an executed order moves the shares held by its quantity and touches no other holding |
| `Portfolio.StepKeepsHoldings` | services/backtesting-service/src/engine/portfolio.py:71-120 | Held quantities and average prices stay positive, and a refused or invalid order changes nothing |
| `PortfolioManager.Manager.Create` | services/backtesting-service/src/engine/portfolio.py:48-62 | A non-positive starting balance is refused; otherwise the account starts empty |
| `PortfolioManager.Manager.ExecuteBuy` | services/backtesting-service/src/engine/portfolio.py:64-102 | A buy has the specified effect on every field, and the object keeps the account invariant |
| `PortfolioManager.Manager.ExecuteSell` | services/backtesting-service/src/engine/portfolio.py:104-155 | A sell has the specified effect on every field, and the object keeps the account invariant |
| `PortfolioManager.Manager.GetEquity` | services/backtesting-service/src/engine/portfolio.py:157-170 | The loop computes cash plus the value held, which equals initial cash plus total P&L minus commissions on buys |
| `PortfolioManager.Manager.GetUnrealizedPnl` | services/backtesting-service/src/engine/portfolio.py:172-180 | The loop sums value minus cost over the open positions |
| `PortfolioManager.Manager.GetTotalPnl` | services/backtesting-service/src/engine/portfolio.py:189-191 | Realized P&L plus the unrealized sum |
| `PortfolioManager.Manager.UpdateEquityCurve` | services/backtesting-service/src/engine/portfolio.py:182-187 | Appends the current equity, split into cash and position value |
| `PositionMonitor.RunFieldsAgree` | services/strategy-worker/src/monitor/position_monitor.py:184-249 | After every operation total P&L is realized plus unrealized; the daily figure never departs from the realized one, so nothing resets it; wins and losses never exceed trades |
| `PositionMonitor.StoredPnlGoesStale` | services/strategy-worker/src/monitor/position_monitor.py:227-247 | After a price update followed only by closes, the stored unrealized P&L exceeds the sum over the live positions by exactly what the closed positions stood at in that update |
| `PositionMonitor.CloseRealizesShare` | services/strategy-worker/src/monitor/position_monitor.py:184-249 | Closing a position at the price of the last update realizes exactly what it contributed to the unrealized P&L |
| `PositionMonitor.ShortMirrorsLong` | services/strategy-worker/src/monitor/position_monitor.py:36-42 | A short position gains exactly what the same position held long would lose, unrealized and on closing |
| `PositionMonitor.AddConservesCost` | services/strategy-worker/src/monitor/position_monitor.py:141-180 | An addition conserves cost across averaging, on either side and with any sign, and removes a position whose quantities cancel without booking anything |
| `PositionMonitor.ClosesAreBooked` | services/strategy-worker/src/monitor/position_monitor.py:194-227 | On every run realized P&L, trade count, wins and losses are those of the closes that found their position |
| `PositionMonitor.ImplementationsAgree` | services/strategy-worker/src/monitor/position_monitor.py:126-233 | With zero commission and tax, any sequence of fills gives the same quantities, average prices and realized P&L in the backtest account and in the live monitor |
| `PositionMonitor.FillKeepsAgreement` | services/backtesting-service/src/engine/portfolio.py:64-155 | One buy or full sale accepted by the account keeps the two implementations in agreement |
| `PositionMonitor.Monitor.AddPosition` | services/strategy-worker/src/monitor/position_monitor.py:126-182 | Averages into an existing position, removes it when the quantities cancel, and prices it at the last entry |
| `PositionMonitor.Monitor.ClosePosition` | services/strategy-worker/src/monitor/position_monitor.py:184-233 | Books the P&L in all three figures and the trade counts, removes the position, and leaves unrealized P&L as it was |
| `PositionMonitor.Monitor.UpdatePrices` | services/strategy-worker/src/monitor/position_monitor.py:235-249 | Reprices the held symbols and recomputes unrealized and total P&L |
| `PositionMonitor.Monitor.SetPrices` | services/strategy-worker/src/monitor/position_monitor.py:241-243 | The loop over the new prices changes the price of the held symbols named and nothing else |
| `PositionMonitor.Monitor.SumUnrealized` | services/strategy-worker/src/monitor/position_monitor.py:245-246 | The sum over positions of their unrealized P&L |
| `PositionMonitor.Monitor.GetPortfolioValue` | services/strategy-worker/src/monitor/position_monitor.py:251-257 | The sum over positions of their market value |
| `InitialOrders.DeploymentBound` | services/strategy-worker/src/executor/strategy_executor.py:188-278 | The first order that reaches the monitor is within m times the capital and each later one within m times the holdings so far, so k of them deploy at most m(1+m)^(k-1) times the capital, for any allocation, symbol list and database failures |
| `InitialOrders.GeometricBound` | services/strategy-worker/src/risk/risk_manager.py:116-136 | The geometric bound for any sequence of orders that meets the position limit against what is already held |
| `InitialOrders.AllocationBound` | services/strategy-worker/src/executor/strategy_executor.py:189-201 | The holdings are also at most the capital times the sum of the positive allocations of the symbols listed |
| `InitialOrders.QuantityIsGreatest` | services/strategy-worker/src/executor/strategy_executor.py:189-201 | The quantity is the greatest whole number of shares whose value is within the allotted capital, truncated towards zero for a negative one |
| `InitialOrders.TurnOutcome` | services/strategy-worker/src/executor/strategy_executor.py:188-290 | What one turn does for every answer of the database: which orders are created, with which status, which shares are bought, and when the loop ends |
| `InitialOrders.EqualOrderNeedsWholePortfolio` | services/strategy-worker/src/executor/strategy_executor.py:216-228 | Because the limit is taken against holdings, an order equal to everything held keeps the position limit if and only if that limit is one or more, and a larger order passes only then |
| `InitialOrders.HoldingsExceedAccepted` | services/strategy-worker/src/executor/strategy_executor.py:188-290 | On every run the value held is that of the orders marked ACCEPTED plus that of the orders orphaned: those whose shares reached the monitor while the position table alone could not be written |
| `InitialOrders.HoldingsAreAcceptedOrdersIff` | services/strategy-worker/src/executor/strategy_executor.py:188-290 | The value held is that of the ACCEPTED orders if and only if no turn orphaned its order |
| `InitialOrders.PlaceOneGap` | services/strategy-worker/src/executor/strategy_executor.py:243-290 | One turn widens the difference by the value of its order if it orphans it, and by nothing otherwise, from any earlier placement |
| `InitialOrders.FailedPositionWriteOrphansShares` | services/strategy-worker/src/executor/strategy_executor.py:265-290 | An orphaned order ends REJECTED while the holdings have grown by its value |
| `InitialOrders.CheckOrder` | services/strategy-worker/src/risk/risk_manager.py:61-231 | Reports a limit if and only if the order breaks it, and warns if and only if the position or loss limit is kept but near |
| `InitialOrders.PassesIff` | services/strategy-worker/src/risk/risk_manager.py:88-208 | An order of either side passes, in amounts of money, if and only if its value is between the order limits, the resulting position is within its share of the portfolio, the exposure is within its limit, and on a losing day the loss is within both loss limits |
| `InitialOrders.SumValues` | services/strategy-worker/src/risk/risk_manager.py:150-151 | The exposure loop returns the sum of the values held |
| `StrategyExecutor.ExecuteInitialOrders` | services/strategy-worker/src/executor/strategy_executor.py:188-290 | The loop over a live monitor and an order table ends in the state the placement function gives, including where a database error stops it |
| `StrategyExecutor.ExecuteOne` | services/strategy-worker/src/executor/strategy_executor.py:189-290 | One turn: skip, create, check against the current holdings, then accept or reject, with each call that may raise |
| `EventLoop.Loop.AddEvent` | services/backtesting-service/src/engine/event_loop.py:50-54 | Adding keeps the queue a heap and adds exactly the event |
| `EventLoop.Loop.PopEarliest` | services/backtesting-service/src/engine/event_loop.py:61-62 | Removes one event, none of those queued being earlier, and keeps the queue a heap |
| `EventLoop.Loop.Rise` | services/backtesting-service/src/engine/event_loop.py:54-54 | The array sift towards the root repairs a heap whose last or sunk entry is out of place, without changing the events |
| `EventLoop.Loop.Sink` | services/backtesting-service/src/engine/event_loop.py:62-62 | The sift to a leaf along the earlier children, then back up, repairs a heap whose root was replaced |
| `EventLoop.Loop.ProcessEvent` | services/backtesting-service/src/engine/event_loop.py:68-78 | The first k handlers of the event's type are called in registration order, k being all of them or up to the first that raises; exactly their events are queued, and the loop stops exactly if one of them stops it |
| `EventLoop.ReactionCalls` | services/backtesting-service/src/engine/event_loop.py:70-78 | The same by index for any behaviour and handler list |
| `EventLoop.Loop.DispatchEarliest` | services/backtesting-service/src/engine/event_loop.py:61-64 | One turn dispatches an earliest event, and leaves nothing earlier queued if and only if its handlers added nothing earlier |
| `EventLoop.Loop.ProcessEvents` | services/backtesting-service/src/engine/event_loop.py:56-66 | The drain loop ends with an empty queue, a stop or an exception, in a state that satisfies Progress: events dispatched plus events left are exactly those queued plus those handlers added; dispatch timestamps never decrease, with nothing left preceding them, if and only if no handler of the run added an event stamped before the one it handled; the loop halted exactly by what the last handlers did. The count is the number of completed dispatches |
| `EventLoop.Loop.ProcessTurns` | services/backtesting-service/src/engine/event_loop.py:61-64 | The same after any number of turns, also of a run that never ends |
| `EventLoop.TurnKeepsProgress` | services/backtesting-service/src/engine/event_loop.py:61-64 | One turn keeps Progress, whatever its handlers add, stop or raise |
| `EventLoop.OrderKeptIff` | services/backtesting-service/src/engine/event_loop.py:61-64 | After one more dispatch a run is in order if and only if it was before and the handlers added nothing stamped before the event |
| `EventLoop.CausalInOrder` | services/backtesting-service/src/engine/event_loop.py:56-66 | Handlers that never add an event before the one they handle keep every run in order |
| `EventLoop.RootIsEarliest` | services/backtesting-service/src/engine/event_loop.py:50-54 | The root of a heap precedes every entry |
| `EventLoop.Loop.RegisterHandler` | services/backtesting-service/src/engine/event_loop.py:42-48 | Handlers of one type are kept in registration order, other types unchanged |
| `OrderLifecycle.OnlyExecuteUndoesCancelled` | services/order-management-service/internal/broker/order_executor.go:63-90 | The only steps that take a row out of CANCELLED are Execute's own status writes, before its last |
| `OrderLifecycle.CancelledAbsorbsIff` | services/order-management-service/internal/broker/order_executor.go:37-150 | In every reachable state a cancellation is final on all continuations if and only if Execute has made its last write; until then Execute can undo it |
| `OrderLifecycle.RejectedAbsorbsIff` | services/order-management-service/internal/broker/order_executor.go:107-139 | After Execute's last write a rejection is final on every continuation if and only if no Cancel is past its status check |
| `OrderLifecycle.LateCancelsAreSafe` | services/order-management-service/internal/broker/order_executor.go:107-139 | If no Cancel passes its check before Execute's last write, CANCELLED and REJECTED both absorb, and the broker has been asked to cancel every cancelled order whose row holds its identifier |
| `OrderLifecycle.BrokerAskedIff` | services/order-management-service/internal/broker/order_executor.go:77-139 | Under the same condition, the broker has been asked to cancel an order it accepted and the table shows cancelled if and only if Execute's write of the fill succeeded and the fill met the check constraint |
| `OrderLifecycle.AskedForSureIff` | services/order-management-service/internal/broker/order_executor.go:106-150 | In any reachable state after Execute with the identifier stored and the order not yet cancelled: every later CANCELLED is one the broker has been asked about if and only if it has been asked already or no Cancel that skipped the broker is still to write |
| `OrderLifecycle.BrokerCancelledIff` | services/order-management-service/internal/broker/order_executor.go:125-134 | On every run the broker has cancelled the order it accepted if and only if some Cancel's call to it succeeded |
| `OrderLifecycle.WithdrawnForSureIff` | services/order-management-service/internal/broker/order_executor.go:125-139 | In any reachable state after Execute with the identifier stored and the order still cancellable: every later CANCELLED row is cancelled with the broker too if and only if a call to the broker has already succeeded |
| `OrderLifecycle.CancelDespiteBroker` | services/order-management-service/internal/broker/order_executor.go:125-139 | However late it comes, a Cancel whose call the broker refuses reports success and leaves the row CANCELLED with the order alive at the broker |
| `OrderLifecycle.EarlyCancelIsLost` | services/order-management-service/internal/broker/order_executor.go:77-139 | From every reachable state in which the broker has accepted a still pending order and Execute is about to write the fill, any new Cancel can report success while the order ends SENT and the broker is not asked |
| `OrderLifecycle.FilledIff` | services/order-management-service/internal/repository/order_repo.go:224-236 | FILLED can occur if and only if the broker reports the whole positive quantity filled at submission; with a zero fill it never does |
| `OrderLifecycle.FilledIsOverwritten` | services/order-management-service/internal/broker/order_executor.go:77-90 | On every run without a failed SENT write, whatever else fails, a finished Execute leaves no order FILLED |
| `OrderLifecycle.FilledLastsIff` | services/order-management-service/internal/broker/order_executor.go:77-90 | A finished Execute whose SENT write had a given outcome can leave the order FILLED if and only if that write failed and the broker had filled the whole positive quantity |
| `OrderLifecycle.AuditTellsStatus` | services/order-management-service/migrations/001_orders.sql:66-82 | On every run the last audit entry is the status, and consecutive entries differ |
| `OrderLifecycle.CancelAloneIff` | services/order-management-service/internal/broker/order_executor.go:107-150 | A Cancel by itself goes on exactly after a successful read of a PENDING or SENT order, asks the broker exactly if the row holds an identifier, and reports success with the row CANCELLED exactly if it can write; otherwise it leaves row and broker alone |
| `OrderLifecycle.InvariantStep` | services/order-management-service/internal/broker/order_executor.go:38-150 | Every statement and broker call of Execute and of the Cancels keeps the row, audit and cancellation invariants |
| `OrderExecutor.Execute` | services/order-management-service/internal/broker/order_executor.go:38-104 | The method's statements leave the row the step model gives, leave other rows alone, and report success exactly when the order was created and the broker took it |
| `OrderExecutor.Cancel` | services/order-management-service/internal/broker/order_executor.go:107-150 | Refuses a missing or finished order, calls the broker exactly when the row has its identifier, and cancels the row whatever the broker answers |
| `OrderExecutor.ExecuteOutcome` | services/order-management-service/internal/broker/order_executor.go:38-104 | With every write succeeding: no row without a positive quantity, REJECTED with the reason if the broker fails, else SENT with the fill as far as the constraint lets it in |
| `OrderExecutor.ExecuteAloneIsARun` | services/order-management-service/internal/broker/order_executor.go:38-104 | An uninterrupted Execute is one of the interleavings, ending with all writes done |
| `OrderExecutor.Repository.CreateOrder` | services/order-management-service/internal/repository/order_repo.go:122-144 | Inserts the row with the caller's status if the database and the quantity constraint allow it |
| `OrderExecutor.Repository.UpdateOrderStatus` | services/order-management-service/internal/repository/order_repo.go:199-221 | Overwrites status and reason unconditionally and has the trigger record a change; reports a missing row |
| `OrderExecutor.Repository.UpdateOrderExecution` | services/order-management-service/internal/repository/order_repo.go:224-248 | Stores the fill and sets FILLED at full quantity, or changes nothing when the fill violates the check constraint |
| `PasswordHash.DecodeInvertsFormat` | services/user-service/internal/auth/password.go:89-104 | Parsing a printed hash gives back memory, iterations, parallelism, salt and key for byte strings of any length |
| `PasswordHash.VerifyIff` | services/user-service/internal/auth/password.go:109-139 | A hash made from a password verifies against exactly the non-empty passwords that derive the same key, the original among them |
| `PasswordHash.OversizedRefused` | services/user-service/internal/auth/password.go:161-166 | A printed parameter that its variable cannot hold makes the hash invalid instead of wrapping |
| `PasswordHash.ReprintingNormalises` | services/user-service/internal/auth/password.go:142-184 | Whatever accepted text was parsed, printing the result and parsing again gives the same parameters, salt and key |
| `PasswordHash.FormatIsInjective` | services/user-service/internal/auth/password.go:94-102 | Two different parameter, salt and key combinations never print alike |
| `PasswordHash.TrailingTextIgnored` | services/user-service/internal/auth/password.go:153-166 | Text behind the version number or behind the parallelism does not change what is parsed, so one hash has many spellings |
| `Base64.DecodeInverts` | services/user-service/internal/auth/password.go:90-91 | Unpadded base64 decoding inverts encoding for every byte string, and the text never contains a dollar sign |
| `Base64.EncodeInvertsIff` | services/user-service/internal/auth/password.go:169-179 | A decodable text is what the encoder prints if and only if it has no line breaks and no leftover bits |
| `Base64.DecodesIff` | services/user-service/internal/auth/password.go:169-179 | A text decodes if and only if it holds only the alphabet and line breaks and no lone character is left over |
| `Scanning.SplitInvertsJoin` | services/user-service/internal/auth/password.go:142-146 | Splitting at the separator undoes joining parts that do not contain it |
| `Scanning.ScanPrinted` | services/user-service/internal/auth/password.go:154-166 | Scanning a printed decimal gives the number back and stops right behind it, signed or unsigned |
| `Scanning.ScanTooLarge` | services/user-service/internal/auth/password.go:161-166 | A number too large for its variable is refused |
| `TelegramEscape.UnescapeInverts` | services/notification-service/internal/channels/telegram.go:272-320 | In each parse mode the original of every string can be read back from its escaped form |
| `TelegramEscape.EscapeIsInjective` | services/notification-service/internal/channels/telegram.go:272-320 | No two strings escape alike |
| `TelegramEscape.EscapeInvertsIff` | services/notification-service/internal/channels/telegram.go:272-320 | The strings escaping can produce are exactly those in which every special stands behind a backslash, or in HTML has no bare angle bracket and every ampersand starts an entity |
| `TelegramEscape.EscapedIsSafe` | services/notification-service/internal/channels/telegram.go:272-320 | Every escaped string has that form |
| `TelegramEscape.PlainUnchanged` | services/notification-service/internal/channels/telegram.go:319-319 | Under any other parse mode the text is unchanged |
| `TelegramEscape.ReadsLiterallyIff` | services/notification-service/internal/channels/telegram.go:275-310 | A reader that takes whatever follows a backslash literally sees the original characters and no markup if and only if the text has no backslash before another character, since backslashes are not escaped |
| `Drawdown.IsWorstPair` | services/backtesting-service/src/metrics/performance_metrics.py:59-68 | On a curve that starts positive and never falls below zero, the running-maximum drawdown is the least of 100·(e_j − e_i)/e_i over all pairs i ≤ j with e_i positive, and some pair attains it |
| `Drawdown.ZeroIffNeverFalls` | services/backtesting-service/src/metrics/performance_metrics.py:59-68 | On a curve that starts positive it is never positive, and zero if and only if the curve never falls |
| `Drawdown.TotalLossIff` | services/backtesting-service/src/metrics/performance_metrics.py:59-68 | It is at most minus 100 if and only if the curve touches zero or goes below |
| `Drawdown.WorstPairIff` | services/backtesting-service/src/metrics/performance_metrics.py:59-68 | For any lower bound on the values: on every curve above it that starts positive no pair does worse than the reported drawdown, if and only if the bound is at least zero |

## Left out

- RecorderGuarantees.StopAccounting: one Stop call and one Start; a second Stop returns at once, and a second Start would close the done channel twice.
- RecorderGuarantees.StoredExactlyOnce: one buffer over its writer; a commit the database made but reported as failed, which would store a batch twice, is not modelled.
- RecorderShutdown.CancelLosesUnwritten: a callback entered before the cancel may still store its batch, whenever its attempts fall; the service's shutdown timeout and the closing of the writers are not modelled.
- BatchBuffer.Buffer.CheckAndTake: one clock reading serves both the timeout test and the new flush time.
- TimescaleWriter.Writer.WriteMessages: back-off sleeps and the last-insert time; an attempt past the end of the given list fails.
- TokenBucket.Limiter.AllowN: Redis errors, Lua's floating point on nanosecond clocks, and the millisecond at which Redis drops a key; a key is gone from the sixtieth idle second on, by the same clock as the script's `now`, and the thresholds of the two if-and-only-if theorems turn on that instant. A clock that runs backwards is allowed in the step but not in the window theorems.
- AuthLimiter.Limiter.CheckLocal: one clock reading per call; the source reads it up to three times under the lock.
- AuthLimiter.LockoutBlocks: the in-memory path only. The Redis lockout and failure keys appear in `FixedWindow` as an input that may reject a check.
- FixedWindow.TwiceTheLimitIff: Redis drops the key at exactly the end of its time to live, by the clock of the checks, and the conditions of the theorem turn on that instant. Checks let through because the script call failed are not counted as admitted, since nothing bounds them.
- Portfolio.EquityIdentity: floating-point rounding; the same holds for `PositionMonitor`, `InitialOrders` and `Drawdown`, and for `Decimal` context precision.
- PortfolioManager.Manager.ExecuteBuy: positions are values in a map, so a caller changing the object `get_position` returned is not modelled; the same holds for `PositionMonitor.Monitor`.
- PositionMonitor.Monitor.ClosePosition: the database writes that follow the update, and their failures.
- StrategyExecutor.ExecuteInitialOrders: an order identifier is its row number; the risk manager's event log and the broker call the source leaves as a placeholder.
- InitialOrders.CheckOrder: the descriptions and actions attached to violations, and the order in which they are listed.
- EventLoop.Loop.ProcessEvents: handlers that call `clear`, `process_events` or `register_handler` themselves; a run on which handlers never stop adding events is covered turn by turn by `ProcessTurns`, which cuts the loop off; events with equal timestamps leave in an order the contract does not fix.
- OrderLifecycle.FilledIff: here and in the other interleaving results the row starts PENDING, as the gRPC handler creates it; a broker that fills asynchronously has no code to report it. Kafka events are not modelled.
- OrderLifecycle.BrokerCancelledIff: a call succeeds exactly when the broker cancels; a cancellation whose answer is lost counts as failed by the executor and as done by the broker, and is not modelled.
- OrderExecutor.Repository.UpdateOrderStatus: the one-order row fields the methods touch; listing queries, timestamps and users are not modelled.
- PasswordHash.VerifyIff: the key derivation is an arbitrary function that returns keys of the length asked for; that it panics on zero iterations or parallelism is not modelled, nor is comparison time.
- Scanning.ScanPrinted: the formatted scanner for `%d` and literal text without blanks, which is all the hash format uses.
- TelegramEscape.ReadsLiterallyIff: a reader of this kind is not part of the repository.
- Drawdown.IsWorstPair: curves whose running maximum is zero or negative somewhere divide by zero or flip sign in the source.
- Machine integers: counters are unbounded except the buffer's 32-bit size counter.
- Kafka, S3, SMTP, WebSocket and HTTP clients, circuit breakers and retry loops: plumbing whose claims are bounded loops.
- The HTTP-wide rate limiter and PriorityAllow: simpler relatives of what is modelled.
- The rebalancing loop, stop-loss check and monitor task: placeholders or single comparisons.
- Sharpe, Sortino, CAGR and value at risk; the matching engine's random slippage: powers, roots and percentiles of a library.
- Password strength rules, token signing, configuration and metrics endpoints: settled by reading one function.
