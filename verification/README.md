# PEPEW: a verified model of its money, trading and concurrency code

This project models the parts of the PEPEW repository where a mistake costs money or jams a service, and
proves what they promise for every input, every interleaving or every run. `dafny verify dfyconfig.toml`
checks all of it.

| file | models |
|---|---|
| `Amount.dfy` | decimal amounts: the parser, the grouping and rounding printer, and the send page's own printer |
| `TxBuilder.dfy` | atomic values, largest-first coin selection, the value flow of transactions and of consolidations |
| `Send.dfy` | the send page: markers of recently spent outpoints against a lagging indexer, previews, retries |
| `Semaphores.dfy` | the slot gate of the wallet API and the semaphore of the RPC client, against one FIFO semaphore |
| `WorkerPool.dfy` | workers that share an index and a result array; the batch request |
| `RawTxCache.dfy` | the bounded raw-transaction cache with random eviction |
| `RateLimiter.dfy` | the per-key chain of callers of the NestEx client |
| `DcaSweep.dfy`, `SweepCost.dfy`, `Dca.dfy` | one DCA purchase, what its fills cost at the limit price, and the DCA engine over every interleaving of its ticks |
| `Devmm.dfy` | cancelling the orders of the development market maker |
| `Scheduler.dfy` | pair ownership between market makers in a scheduler tick |
| `BalanceCache.dfy` | the stale-on-error balance cache |
| `Calendar.dfy` | ISO week numbers and report windows over JavaScript's dates |
| `WalletStore.dfy` | users, receiving addresses and payment requests |
| `Wrappers.dfy`, `Arith.dfy`, `Text.dfy`, `Lists.dfy` | options and results, products and quotients, text and array operations |

Code between two awaits is one atomic step. Objects that update their fields are classes here, and each of
their methods is proved to take its state to what a step function says; runs of those step functions carry
the theorems. Amounts, times and counters are unbounded integers with the source's own limits written out;
trading prices and quantities are exact reals. The exchange, the indexer, the upstream, the clock and random
choices are inputs that may behave in any way the stated assumptions do not exclude.

## What turned out not to hold

Each of these is proved from the code: an input on which the expected property fails, and the exact condition
under which it holds.

- Without decimals the parser cuts fractions off instead of rounding (`Amount.NoDecimalsExample`, `Amount.NoDecimalsTruncates`).
- Coin selection picks a coin that is not needed exactly for a zero target with coins at hand (`TxBuilder.ZeroTargetPicks`, `TxBuilder.GreedyOptimal`).
- A spent outpoint comes back once the indexer lists it again after having dropped it (`Send.OfferedTwice`), and within
  the marker time only then (`Send.SelectableAgainIff`) or when 2000 markers stand before its own: fourteen sends of 150
  coins push it out (`Send.OverflowOffers`, `Send.OverflowIff`).
- A caller that sleeps when a backoff is noted calls before the backoff is over (`RateLimiter.LateBackoffIgnored`),
  unless it could not have called earlier anyway (`RateLimiter.LateBackoffRespectedIff`).
- A sweep that records at most 26/27 of its budget may spend 13/9 of it at its limit price (`DcaSweep.SweepBoundsTight`).
  With full fills it stays within the budget exactly when its second order is not placed (`SweepCost.FullFillsWithinIff`),
  and with any fills exactly when the budget is affordable in the stated sense (`SweepCost.EveryFillWithinIff`).
- `unknown_only` can cancel an order that a later listing shows with the managed prefix (`Devmm.LatePrefixTouched`), and
  does so exactly when a listing omits a prefix that another shows (`Devmm.UnknownOnlySpares`). `visibleBefore` is the size
  of the last listing read (`Devmm.VisibleBeforeOverwritten`, `Devmm.VisibleBeforeFirst`); `attempted` stays 0 when a
  listing throws (`Devmm.CancelAllDevmmOrders`).
- A cached balance may be older than any limit, even right after a call that failed for age
  (`BalanceCache.HitsOutliveTheLimit`); hits stay fresh exactly when the last try followed the last success closely enough
  (`BalanceCache.HitsFreshIff`, and over runs `BalanceCache.NextHitsFreshIff`).
- From the year 100 on, week numbers are wrong exactly on its first three days, and windows miss their own time exactly in
  the local years 0..99 (`Calendar.WeekCorrectFromYear100`, `Calendar.WindowContainsIff`).
- Setting a receiving address erases the user's name (`WalletStore.NameLost`, `WalletStore.UsernameForgotten`): over all
  runs a user carries a name exactly when the last operation that wrote their row gave it to them
  (`WalletStore.EveryRunNames`).

The two concurrency limits differ in one step that neither module can be made to take, since both release only what they
acquired: a release that belongs to no holder adds a permit to the RPC semaphore but not to the slot gate
(`Semaphores.StrayRelease`).

## Model

| member | source | states |
|---|---|---|
| Amount.ParsePepewToAtomic | apps/web/src/lib/amount.ts:25-56 | every accepted text gives the half-up quotient of the rational number it denotes, carries included; each rejected text gives its own error |
| Amount.ReadDecimal | apps/web/src/lib/amount.ts:37-55 | cutting, padding and looking at one rounding digit compute that quotient |
| Amount.HalfUpNearest | apps/web/src/lib/amount.ts:42-53 | the rounding used by parser and printer picks the nearest multiple, and the larger of two nearest |
| Amount.NoDecimalsTruncates | apps/web/src/lib/amount.ts:37-55 | with decimals = 0 the result is half-up exactly when the first fraction digit is below 5 |
| Amount.NoDecimalsExample | apps/web/src/lib/amount.ts:37-55 | "0.5" with no decimals is read as 0 where half-up gives 1 |
| Amount.ParseMeaning | apps/web/src/lib/amount.ts:25-56 | a text is accepted exactly when it is a decimal once commas and blanks are taken out, wherever they stand, and the result is the nearest multiple, the larger of two nearest, or the whole part without decimals |
| Amount.FormatAtomicToPepew | apps/web/src/lib/amount.ts:58-105 | for every option the printer's quotient, remainder, padding and trimming yield the text of the half-up rounded amount; negative inputs are errors |
| Amount.TrimFraction | apps/web/src/lib/amount.ts:92-96 | the trimming loop stops at the minimum number of digits or at a non-zero digit |
| Amount.PrintForm | apps/web/src/lib/amount.ts:58-105 | for every option: no superfluous zeros in front, grouped unless switched off, between the smallest and the largest number of fraction digits and none more than needed unless trimming is switched off; missing and out-of-range options take their defaults and bounds |
| Amount.PrintParse | apps/web/src/lib/amount.ts:25-105 | parsing a print gives the half-up nearest multiple of 10^(decimals - max) for every option, and the amount itself at full precision |
| Amount.ShownMonotoneIdempotent | apps/web/src/lib/amount.ts:75-101 | what a print shows is monotone in the amount, and showing it again changes nothing |
| Amount.GroupByThousands | apps/web/src/lib/amount.ts:21-23 | grouping cuts the digits into threes from the right |
| Amount.SecondPrinterAgrees | apps/web/src/pages/Send.tsx:75-81 | the send page's printer equals the ungrouped default print at 8 decimals, so it is read back exactly; a negative print never parses |
| TxBuilder.ToSatoshiMeaning | packages/wallet-core/src/txbuilder.ts:16-39 | a value is accepted as exactly the number it denotes, leading zeros and blanks aside, or refused for sign, range or syntax |
| TxBuilder.ToSatoshiOfText | packages/wallet-core/src/txbuilder.ts:16-39 | an amount handed over as its decimal text arrives unchanged |
| TxBuilder.PickUntil | packages/wallet-core/src/txbuilder.ts:69-77 | the picking loop takes the shortest non-empty prefix that reaches the target, or everything |
| TxBuilder.SelectUtxos | packages/wallet-core/src/txbuilder.ts:59-78 | selection fails for funds exactly when all valid values together fall short; otherwise it returns the greedy prefix with its true total |
| TxBuilder.TopCoins | packages/wallet-core/src/txbuilder.ts:61-68 | no n coins are worth more than the first n in largest-first order |
| TxBuilder.GreedyOptimal | packages/wallet-core/src/txbuilder.ts:59-78 | the picked coins are a sub-multiset, the fewest that reach the target, and none can be spared, exactly when the target is positive or there is no coin |
| TxBuilder.ZeroTargetPicks | packages/wallet-core/src/txbuilder.ts:69-77 | a zero target picks the one coin at hand, more than the fewest |
| TxBuilder.AddInputs | packages/wallet-core/src/txbuilder.ts:100-108 | the input loop succeeds exactly on distinct outpoints with valid values and indices, and then sums them |
| TxBuilder.BuildAndSignP2PKH | packages/wallet-core/src/txbuilder.ts:80-133 | it fails for funds exactly when valid inputs fall short of amount plus fee; otherwise the first output is the amount at the recipient, a second one exists exactly for positive change and is that change at the change address, and inputs equal outputs plus fee |
| TxBuilder.PaysWhom | packages/wallet-core/src/txbuilder.ts:113-116 | the recipient receives exactly the amount, the change address exactly the change, and nobody else anything |
| TxBuilder.SelectionBuilds | packages/wallet-core/src/txbuilder.ts:59-133 | coins selected for amount plus fee always build, and leave exactly the selected surplus as change |
| TxBuilder.SumInputs | apps/web/src/utils/consolidate.ts:41-49 | the consolidation's input sum is that of the atomic values, all of which must be well-formed |
| TxBuilder.BuildConsolidationTx | apps/web/src/utils/consolidate.ts:34-71 | a consolidation succeeds under exactly the stated condition and yields one output that holds everything but the fee |
| Send.OutpointKeyInjective | apps/web/src/pages/Send.tsx:89-91 | two outpoints have the same key exactly when they are the same |
| Send.MarkerSurvives | apps/web/src/pages/Send.tsx:93-145 | over every run within time and capacity a marker lives on as long as every listing contains its outpoint |
| Send.MarkerForgotten | apps/web/src/pages/Send.tsx:127-145 | a listing without the outpoint removes its marker for good, unless it is spent again |
| Send.LaggingIndexerExcluded | apps/web/src/pages/Send.tsx:127-156 | a spent outpoint that the indexer has not yet dropped is never offered |
| Send.SpentNeverSelected | apps/web/src/pages/Send.tsx:93-156 | an outpoint of a successful broadcast is never offered within its time if the indexer never re-lists what it dropped |
| Send.SelectableAgainIff | apps/web/src/pages/Send.tsx:127-156 | a listed coin that was spent is offered again exactly when some listing since the broadcast lacked it |
| Send.OfferedTwice | apps/web/src/pages/Send.tsx:127-156 | a broadcast, an answer without the coin and one with it make it offered again |
| Send.OfferedExactly | apps/web/src/pages/Send.tsx:93-156 | from a fresh page on, over any time: a listed coin is kept back exactly while it was broadcast less than ten minutes ago and every answer since has listed it |
| Send.SaveCutoff | apps/web/src/pages/Send.tsx:109-125 | a save keeps a marker exactly when fewer than 2000 stand before it, and keeps keys unique |
| Send.OverflowIff | apps/web/src/pages/Send.tsx:93-145 | over a run of saves, loads and answers of a lagging indexer a marker survives exactly when fewer than 2000 stand before it |
| Send.OverflowOffers | apps/web/src/pages/Send.tsx:109-156 | fourteen sends of 150 coins, within the limits of the page, make it offer a coin spent before them |
| Send.SpendableMember | apps/web/src/pages/Send.tsx:147-156 | exactly the listed coins of positive value that are not excluded are offered |
| Send.SpendableOrder | apps/web/src/pages/Send.tsx:147-156 | confirmed coins are offered first, and small ones before large ones of the same kind |
| Send.BuildPreview | apps/web/src/pages/Send.tsx:371-422 | previewed change, keys and total are those of the built transaction, in both subtract-fee modes |
| Send.PreviewPays | apps/web/src/pages/Send.tsx:371-422 | what a preview pays to the recipient and back to the wallet, in both subtract-fee modes |
| Send.Prepare | apps/web/src/pages/Send.tsx:338-422 | the recipient gets the amount, or the amount less the fee when it is subtracted, and the wallet the change; on well-listed coins a send succeeds exactly when some 150 coins suffice, uses the fewest inputs, and otherwise each error has its own condition |
| Send.ReselectedCoins | apps/web/src/pages/Send.tsx:371-386 | filtering the listed coins by the keys of the picked ones gives the picked ones back |
| Send.Page.LoadRecentSpent | apps/web/src/pages/Send.tsx:93-107 | a reload keeps the live markers up to the maximum |
| Send.Page.LoadSpendableSnapshot | apps/web/src/pages/Send.tsx:330-336 | an answer keeps the live markers of listed outpoints and offers the rest |
| Send.Page.BuildSignedTx | apps/web/src/pages/Send.tsx:338-422 | the retries stop at the first answer that offers enough or after six, and the transaction uses coins of the last answer only |
| Send.Page.Broadcast | apps/web/src/pages/Send.tsx:424-439 | the outpoints of a preview are marked after a successful broadcast and only then |
| Send.ConsecutiveSendsDisjoint | apps/web/src/pages/Send.tsx:324-439 | a second send after any events shares no input with the first within the marker time |
| Semaphores.RunSafe | services/wallet-api/src/server.ts:640-686 | over every bracketed run holders stay within the limit, nobody waits while a slot is free, and the queue within its maximum |
| Semaphores.WaiterServed | services/wallet-api/src/server.ts:645-677 | the waiter at position k is woken exactly when more than k releases happen |
| Semaphores.GateRefines | services/wallet-api/src/server.ts:640-686 | the slot gate behaves step by step like the FIFO semaphore with a bounded queue |
| Semaphores.SemRefines | pepew-api/pepew-api/src/rpc.ts:33-51 | the RPC semaphore behaves step by step like the same FIFO semaphore with an unbounded queue |
| Semaphores.GateIsSemaphore | pepew-api/pepew-api/src/rpc.ts:33-92 | on bracketed runs without a refusal the two give the same outcomes to the same callers |
| Semaphores.GateOutcome | services/wallet-api/src/server.ts:645-677 | with n callers let in and not yet out, a caller gets a slot exactly when n < limit, waits exactly when limit <= n < limit + maxQueue, and is refused otherwise; a release wakes somebody exactly when n > limit |
| Semaphores.SemOutcome | pepew-api/pepew-api/src/rpc.ts:33-51 | the same for the RPC semaphore, which refuses nobody |
| Semaphores.StrayRelease | pepew-api/pepew-api/src/rpc.ts:43-50 | after any release the two counts agree exactly when somebody held a slot |
| Semaphores.SlotGate.AcquireSlot | services/wallet-api/src/server.ts:645-671 | takes a slot, joins the queue or is refused, in the gate's step function |
| Semaphores.SlotGate.ReleaseSlot | services/wallet-api/src/server.ts:673-677 | hands the slot to the first waiter in the same step |
| WorkerPool.EveryInterleaving | services/wallet-api/src/server.ts:2458-2506 | each index is claimed once and in order, runs are finite, and when all workers finish every slot holds its own txid's result and ok + failed = hit + miss = number of txids |
| WorkerPool.EverySlot | services/wallet-api/src/server.ts:2464-2491 | in every interleaving slot i is filled exactly when the worker holding index i has completed, which happens at most once, and holds the outcome it completed with; the items and counters of every kind are as many as the completions of that kind |
| WorkerPool.BatchPool.TakeNext | services/wallet-api/src/server.ts:2464-2467 | testing and advancing the shared index is one step of the pool |
| WorkerPool.BatchPool.Store | services/wallet-api/src/server.ts:2468-2491 | the result lands in the claimed slot and counts as one hit or one miss |
| WorkerPool.ReadBatch | services/wallet-api/src/server.ts:2424-2456 | the first bad item decides the error; otherwise each normalised txid is kept once in order of first occurrence |
| WorkerPool.BatchTxids | services/wallet-api/src/server.ts:2441-2453 | an item is accepted exactly when it spells 64 hexadecimal digits in any case, with blanks around it or not, and a batch asks for the ids its items spell |
| RawTxCache.Shuffle | services/wallet-api/src/server.ts:2231-2236 | whatever the random choices, the keys are only permuted |
| RawTxCache.Cache.SweepExpired | services/wallet-api/src/server.ts:2220-2225 | exactly the unexpired entries remain |
| RawTxCache.Cache.EvictRandom | services/wallet-api/src/server.ts:2227-2240 | exactly a tenth of the entries, rounded up, goes; no other entry changes |
| RawTxCache.Cache.EnforceBounds | services/wallet-api/src/server.ts:2242-2254 | the bound holds afterwards, the loop ends, and it needs at most one round for one entry too many |
| RawTxCache.Cache.GetRawTx | services/wallet-api/src/server.ts:2256-2264 | a hit is the value stored last for the txid, not yet expired |
| RawTxCache.Cache.SetRawTx | services/wallet-api/src/server.ts:2266-2273 | a store keeps the bound with at most one eviction round and never changes another entry |
| RateLimiter.EveryRun | services/trade-api/src/exchanges/nestex.ts:136-190 | per key, callers pass one at a time in order of arrival, stamps j and i are at least j - i intervals apart, and no stamp precedes the backoff deadline standing when its turn began |
| RateLimiter.StepInv | services/trade-api/src/exchanges/nestex.ts:149-190 | every step of every caller keeps turns, deadlines and spacing, although the elapsed time is computed from a stale clock reading |
| RateLimiter.NotedBackoffKept | services/trade-api/src/exchanges/nestex.ts:149-190 | on every run after a noted backoff no caller whose turn had not begun stamps before it is over |
| RateLimiter.DeadlineIsLatest | services/trade-api/src/exchanges/nestex.ts:149-158 | on every run the deadline of a key is the latest one noted for it |
| RateLimiter.TurnTakes | services/trade-api/src/exchanges/nestex.ts:168-184 | a turn that begins ends no earlier than the backoff plus what is missing of the interval, and some run ends it just then |
| RateLimiter.EveryCallerCanStamp | services/trade-api/src/exchanges/nestex.ts:160-190 | the chain never jams: from every state each caller in it can still reach its call |
| RateLimiter.LateBackoffRespectedIff | services/trade-api/src/exchanges/nestex.ts:149-184 | for a caller that sleeps when a backoff is noted, every run respects the new deadline exactly when the caller's earliest possible stamp does |
| RateLimiter.LateBackoffIgnored | services/trade-api/src/exchanges/nestex.ts:149-184 | one caller's call is refused with a minute's backoff while the next one sleeps, and that one calls five seconds after the first |
| RateLimiter.Limiter.Join | services/trade-api/src/exchanges/nestex.ts:160-168 | a caller joins the end of its key's chain and no other |
| RateLimiter.Limiter.TakeTurn | services/trade-api/src/exchanges/nestex.ts:168-184 | a turn ends in a backoff sleep, an interval sleep or a stamp |
| RateLimiter.Limiter.AwaitInterval | services/trade-api/src/exchanges/nestex.ts:177-184 | the interval check with the time of the turn's beginning |
| RateLimiter.Limiter.WakeUp | services/trade-api/src/exchanges/nestex.ts:175-184 | what a caller does after either sleep |
| RateLimiter.Limiter.NoteRateLimit | services/trade-api/src/exchanges/nestex.ts:149-158 | the deadline becomes the later of the old and the new one |
| DcaSweep.RunSweep | services/trade-api/src/strategies/dcaRunner.ts:452-523 | the loop with all its ways out runs the attempts of the specification |
| DcaSweep.AttemptsConserve | services/trade-api/src/strategies/dcaRunner.ts:456-523 | after k attempts remaining + filled quote = budget and at least budget / 3^k remains |
| DcaSweep.SweepBounds | services/trade-api/src/strategies/dcaRunner.ts:452-529 | recorded spend is at most 26/27 of the budget, and the fills cost at most 13/9 of it at the limit price |
| DcaSweep.SweepBoundsTight | services/trade-api/src/strategies/dcaRunner.ts:452-529 | both bounds are reached |
| DcaSweep.SweepBuys | services/trade-api/src/strategies/dcaRunner.ts:452-529 | for all replies, orders go out while a whole unit is affordable and none was refused for a critical reason, and the sweep records exactly what they filled |
| SweepCost.FullFillsWithinIff | services/trade-api/src/strategies/dcaRunner.ts:452-529 | when every order fills, the cost at the limit price stays within the budget exactly when the second order is not placed |
| SweepCost.EveryFillWithinIff | services/trade-api/src/strategies/dcaRunner.ts:452-529 | no honest exchange, whatever it fills, can make the sweep cost more than its budget exactly when the budget is affordable: with a minimum of at most one unit, at most one unit's price |
| DcaSweep.PurchaseSound | services/trade-api/src/strategies/dcaRunner.ts:307-539 | on an honest market a recorded purchase is worth its quote at the quoted price, positive and within the budget |
| DcaSweep.PurchasedIff | services/trade-api/src/strategies/dcaRunner.ts:307-539 | a purchase is recorded exactly when the price is known, the budget reaches the minimum, and the order was accepted or some order of the sweep filled, with that quantity |
| DcaSweep.Buy | services/trade-api/src/strategies/dcaRunner.ts:307-539 | the purchase on all three exchanges records at most once, at the quoted price, the whole budget or what the sweep filled |
| Dca.StepKeeps | services/trade-api/src/strategies/dcaRunner.ts:154-299 | every atomic step of every tick keeps the caps of every config and what each tick may rely on in its phase |
| Dca.EveryInterleaving | services/trade-api/src/strategies/dcaRunner.ts:154-299 | over every interleaving of ticks that buy on honest markets, recorded fills stay within maxTotalSpend, the quote of a UTC day within the daily maximum, any trailing hour within 20 orders, and purchases at least the interval apart |
| Dca.UnsafeWithoutLock | services/trade-api/src/strategies/dcaRunner.ts:163-168 | two ticks that ignore the lock overspend the total budget |
| Dca.BeginsIff | services/trade-api/src/strategies/dcaRunner.ts:155-222 | a tick gets past its guards, whatever happens meanwhile, exactly when its config is enabled, unlocked, before its end, within the total budget, an interval after its last run, has its key and no backoff; it is switched off exactly at its end or budget |
| Dca.ChecksIff | services/trade-api/src/db.ts:1770-1793 | it may buy exactly when the symbol is known, the hour holds fewer than 20 orders and the day has room for the budget |
| Dca.RecordsIff | services/trade-api/src/strategies/dcaRunner.ts:541-583 | it adds one order and one fill exactly when the market sells, and nothing otherwise |
| Dca.DueTickBuys | services/trade-api/src/strategies/dcaRunner.ts:154-299 | from every reachable state a tick buys exactly once when all of these hold, and is turned away for no other reason |
| Dca.TickEnds | services/trade-api/src/strategies/dcaRunner.ts:290-298 | a tick that has bought leaves its time as the stored run time and its config unlocked |
| Dca.Engine.BeginTick | services/trade-api/src/strategies/dcaRunner.ts:155-222 | lock, duration cap, budget cap, parameter and interval guards up to the first await |
| Dca.Engine.CheckRates | services/trade-api/src/db.ts:1770-1793 | the hourly and daily limits decide whether the tick may buy |
| Dca.Engine.RecordExecution | services/trade-api/src/strategies/dcaRunner.ts:541-583 | a purchase that comes about adds one order row and one fill row |
| Devmm.OrderIdIs | services/trade-api/src/routes/devmm.ts:113-115 | normalising trims an id and takes a fraction of zeros off it, and changes nothing else |
| Devmm.VisibleMember | services/trade-api/src/routes/devmm.ts:190-251 | a listing shows exactly the orders with a non-empty normalised id |
| Devmm.TrackedMember | services/trade-api/src/routes/devmm.ts:298-307 | the tracked ids are the normalised ones of the state's list and its two open orders |
| Devmm.CollectTracked | services/trade-api/src/routes/devmm.ts:298-307 | the tracked ids, normalised and without duplicates |
| Devmm.SelectOrderIds | services/trade-api/src/routes/devmm.ts:309-317 | the ids of a listing that are in scope, and the visible counts |
| Devmm.AttemptEach | services/trade-api/src/routes/devmm.ts:330-381 | every new id is cancelled once and counted by its outcome |
| Devmm.SweepRounds | services/trade-api/src/routes/devmm.ts:383-399 | up to three more listings, ending when one brings nothing new or throws |
| Devmm.CancelAllDevmmOrders | services/trade-api/src/routes/devmm.ts:253-406 | no id is cancelled twice; attempted = cancelled + alreadyClosed + failed exactly when no listing threw or nothing was cancelled; Dextrade makes no call |
| Devmm.TouchedExactly | services/trade-api/src/routes/devmm.ts:318-399 | the ids touched are the tracked ones (unless unknown_only) and what the listings read select, over all rounds |
| Devmm.ReadsExactly | services/trade-api/src/routes/devmm.ts:383-399 | a listing is read exactly when none up to it throws and, beyond the second, every extra one on NestEx brought a new id; a run fails exactly at a listing that throws |
| Devmm.AllTouches | services/trade-api/src/routes/devmm.ts:309-399 | all touches an id exactly when it is tracked or some listing read shows it |
| Devmm.ManagedOnlyTouches | services/trade-api/src/routes/devmm.ts:309-399 | managed_only touches an id exactly when it is tracked or some listing read shows it with the prefix |
| Devmm.UnknownOnlyTouches | services/trade-api/src/routes/devmm.ts:309-399 | unknown_only touches an id exactly when it is untracked and some listing read shows it without the prefix |
| Devmm.UnknownOnlySpares | services/trade-api/src/routes/devmm.ts:309-399 | unknown_only never touches a tracked id, and spares every prefixed one exactly when no listing omits a prefix that another shows |
| Devmm.LatePrefixTouched | services/trade-api/src/routes/devmm.ts:309-399 | a run that cancels an order as unknown before the next listing shows it with the prefix |
| Devmm.VisibleBeforeFirst | services/trade-api/src/routes/devmm.ts:309-399 | visibleBefore is the size of the first listing exactly when the last one read has the same size, and always outside NestEx |
| Devmm.VisibleBeforeOverwritten | services/trade-api/src/routes/devmm.ts:309-399 | on NestEx it becomes 0 once the cancelled order is no longer listed |
| Scheduler.ExchangeSpellings | services/trade-api/src/registry/exchanges.ts:106-120 | a text is known exactly when it spells nonkyc, nestex, dextrade, dex-trade or one of the two prototype names, in any case and with any blanks around, and never names two exchanges |
| Scheduler.PairSpellings | services/trade-api/src/registry/pairs.ts:5-48 | a text names a market exactly when, blanks aside, it reads PEPEW and the quote asset in any case with a slash, an underscore or nothing between them; no text names two markets |
| Scheduler.KeyInjective | services/trade-api/src/scheduler.ts:20-22 | equal occupancy keys mean equal exchange and pair |
| Scheduler.DispatchedIff | services/trade-api/src/scheduler.ts:62-154 | a config reaches a runner exactly when its strategy is that runner's name in any case and, for the market maker, no DevMM config of the snapshot spells the name of the same exchange and the same pair |
| Scheduler.ActionMember | services/trade-api/src/scheduler.ts:62-154 | the loop's actions are those of its configs and no others |
| Scheduler.CollidingDisabled | services/trade-api/src/scheduler.ts:69-132 | every colliding config is among the disabled ones |
| Scheduler.DisabledIff | services/trade-api/src/scheduler.ts:62-154 | a config is left disabled exactly when it collides or a dispatched runner disabled it |
| Scheduler.ActionsInOrder | services/trade-api/src/scheduler.ts:62-154 | the loop acts in the order of the configs |
| Scheduler.StrategyScheduler.BuildOccupancy | services/trade-api/src/scheduler.ts:44-51 | the occupancy set holds the key of every DevMM config that names a known market |
| Scheduler.StrategyScheduler.IsOwned | services/trade-api/src/scheduler.ts:63-69 | comparing keys decides whether the two configs name the same market |
| Scheduler.StrategyScheduler.RunConfig | services/trade-api/src/scheduler.ts:62-154 | a config is skipped and disabled, ignored, or dispatched to its runner |
| Scheduler.StrategyScheduler.RunTick | services/trade-api/src/scheduler.ts:40-164 | the loop's actions and the enabled flags after it, up to a runner that throws; every colliding config it got past is disabled |
| Scheduler.StrategyScheduler.RunDevmm | services/trade-api/src/scheduler.ts:166-196 | the DevMM configs are dispatched in order up to one whose runner throws |
| Scheduler.StrategyScheduler.RunSchedulerTick | services/trade-api/src/scheduler.ts:40-197 | the DevMM configs get their turn even when a strategy's runner throws |
| BalanceCache.EveryRun | services/trade-api/src/lib/balanceHelper.ts:65-247 | on every run of non-overlapping calls the entry holds the last success with its start time, the failures since and the time of the last attempt, and cached-mode fetches start at least the TTL after that |
| BalanceCache.DegradedIff | services/trade-api/src/lib/balanceHelper.ts:120-247 | fresh balances are passed on; a refused or unreadable answer is replaced by the last success exactly when that is younger than STALE_OK_MS; every other failure is answered as one |
| BalanceCache.HitServesLastSuccess | services/trade-api/src/lib/balanceHelper.ts:99-118 | a call is answered from the cache exactly when it may be, there was a success and the last attempt is less than the TTL ago; the answer is the last success and nothing changes |
| BalanceCache.HitsFreshIff | services/trade-api/src/lib/balanceHelper.ts:99-118 | all hits of an entry are younger than STALE_OK_MS exactly when its last try came at most STALE_OK_MS minus the TTL after the last success |
| BalanceCache.NextHitsFreshIff | services/trade-api/src/lib/balanceHelper.ts:65-247 | on every run, the next hits are so exactly then, or when the TTL has run out |
| BalanceCache.HitsOutliveTheLimit | services/trade-api/src/lib/balanceHelper.ts:99-118 | for any age, a hit right after a failure for age still answers with the old success |
| BalanceCache.KeysIndependent | services/trade-api/src/lib/balanceHelper.ts:45-48 | an entry is what the calls for its own key make of it |
| BalanceCache.Balances.MarkFailed | services/trade-api/src/lib/balanceHelper.ts:65-87 | a failure keeps the snapshot and counts up |
| BalanceCache.Balances.GetNormalizedBalances | services/trade-api/src/lib/balanceHelper.ts:89-247 | the call's branches serve, store, degrade or fail as specified |
| Calendar.GetIsoWeek | services/trade-api/src/routes/strategy.ts:155-161 | moving a date to its Thursday with setUTCDate stays within the calendar and yields CodeWeek, which the next rows relate to ISO 8601 |
| Calendar.WeekCorrectIff | services/trade-api/src/db.ts:2269-2275 | outside the years 0..99 the result is the first-Thursday week exactly when the Thursday is outside them too; inside, it is the week of 1900 years later |
| Calendar.WeekCorrectFromYear100 | services/trade-api/src/db.ts:2269-2275 | from the year 100 on only its first three days get a wrong week |
| Calendar.IsoWeekRange | services/trade-api/src/routes/strategy.ts:155-161 | week numbers lie in 1..53 |
| Calendar.WeekConstant | services/trade-api/src/routes/strategy.ts:155-182 | the week number is the same throughout a weekly window |
| Calendar.WindowContainsIff | services/trade-api/src/routes/strategy.ts:163-194 | a daily, weekly or monthly window contains its own time exactly when the local year is not one of 0..99 |
| Calendar.WindowShape | services/trade-api/src/routes/strategy.ts:163-194 | a window runs between local midnights over exactly the day, the week from Monday or the calendar month of its time |
| Calendar.WindowsTile | services/trade-api/src/routes/strategy.ts:163-194 | two times share a window exactly when one lies in the other's, and where a window ends the next one starts |
| WalletStore.RunKeeps | services/wallet-api/src/db.ts:83-219 | over all runs each address has one owner, each user at most one default, and a claimed address stands exactly on claimed requests |
| WalletStore.RunMoves | services/wallet-api/src/db.ts:177-219 | over all runs a request moves at most once, from pending to claimed or expired, and then stays |
| WalletStore.EveryRunClaims | services/wallet-api/src/db.ts:155-219 | over all runs a created request ends up claimed with an address exactly when the user it is for claimed it with that address, in time and before anything else settled it; it keeps its sender, addressee and demand |
| WalletStore.Fate | services/wallet-api/src/db.ts:177-219 | a pending request is claimed or expired by the first operation that settles it, and stays pending without one |
| WalletStore.WithDefaultResolves | services/wallet-api/src/db.ts:113-127 | setting a default gives it to the user, takes it from its former owner, and leaves all others alone |
| WalletStore.LabelsKept | services/wallet-api/src/db.ts:118-126 | an address takes the new label or keeps its own, and no other label changes |
| WalletStore.EveryRunResolves | services/wallet-api/src/db.ts:109-142 | over all runs resolving a user gives the last address they set unless another user took it since |
| WalletStore.UsernameForgotten | services/wallet-api/src/db.ts:83-130 | after setting an address a user's name resolves to nobody exactly when no other user carries it |
| WalletStore.NameLost | services/wallet-api/src/db.ts:109-151 | a user found by name is found no more after setting an address |
| WalletStore.EveryRunNames | services/wallet-api/src/db.ts:83-206 | over all runs a user carries a name exactly when the last operation that wrote their row was an upsert with it; setting an address, claiming and requesting all erase it |
| WalletStore.EveryRunResolvesName | services/wallet-api/src/db.ts:143-151 | over all runs a name, with or without its at-sign, resolves to the last address of the user carrying it, of the one seen first if there are several, and to nobody exactly when nobody carries it |
| WalletStore.ClaimPays | services/wallet-api/src/db.ts:177-206 | a claim that goes through settles the request and is what the claimer resolves to |
| WalletStore.WalletDb.UpsertUser | services/wallet-api/src/db.ts:83-107 | one row per Telegram id, with the name given last |
| WalletStore.WalletDb.SetDefaultAddress | services/wallet-api/src/db.ts:109-130 | clears the user's defaults and inserts or takes over the address |
| WalletStore.WalletDb.ResolveUserDetail | services/wallet-api/src/db.ts:134-153 | resolves by id first, then by name without its at-sign |
| WalletStore.WalletDb.CreatePaymentRequest | services/wallet-api/src/db.ts:155-175 | a new pending request with its expiry |
| WalletStore.WalletDb.ClaimPaymentRequest | services/wallet-api/src/db.ts:177-206 | missing, foreign, settled and expired requests give their errors, a claim goes through exactly for the addressee of a pending request in time, and only expiry writes anything among the errors |
| WalletStore.WalletDb.GetPaymentRequest | services/wallet-api/src/db.ts:208-219 | a request that is read is never pending past its expiry |

## Left out

- Signing, scripts, address encoding, key derivation and encryption; the transaction library's rules other than its refusal of duplicate inputs.
- HTTP handlers, fetch wrappers, the Telegram bot, rendering, logging and translation.
- SQL itself: each prepared statement is an atomic query or update of rows, and database writes succeed.
- Storage failures on the send page (the branches that swallow localStorage errors) and abandoned pages.
- Floating point: prices and quantities are exact reals, and ceil(0.1 * n) is exact; environment limits are integers.
- Non-ASCII letter case, except the three letters that change into an ASCII letter (U+0131, U+017F, U+212A).
- JavaScript numbers above 2^53 and dates outside the range of Date.
- Easy members of consolidation (choosing inputs, estimating rounds and bytes), addAtomic and cmpAtomic.
- Bucket labels of reports and fills near New Year, which pair a calendar year with an ISO week.
- Backoff bookkeeping, error-text classification, price sources, log throttling, the grid, market-making and DevMM runners (a runner is an arbitrary effect).
- TxBuilder.SelectUtxos: which of several invalid values is reported depends on the sort's comparisons; the first one listed is reported here.
- WorkerPool.BatchPool.Store: the retries inside one fetch are part of its outcome.
- Send.ConsecutiveSendsDisjoint: assumes that live markers stay within 2000 and that the indexer never re-lists an outpoint it dropped; OfferedTwice and OverflowOffers show that both are needed.
- Send.Page.LoadRecentSpent: storage that cannot be read or parsed, which the source treats as empty, is not modelled.
- RateLimiter.EveryRun: assumes a clock that never runs backwards and sleeps that never end early.
- DcaSweep.SweepBounds: assumes reported fills between zero and the quantity ordered.
- DcaSweep.Buy: a call to the exchange that throws ends the purchase without a record, also after earlier attempts of a sweep have filled; the order registry and the cancel calls are not modelled.
- Dca.Engine.BeginTick: cancelling a stopped config's orders and the events it logs are not modelled.
- Dca.Engine.RecordExecution: the order log, the event and the status parameters, which no cap reads, are not modelled.
- Dca.EveryInterleaving: reported fills are assumed honest; parameters of a config stay fixed during a run; the orders that a tick cancels before buying are not modelled, nor is the backoff that may keep a tick from starting other than as an arbitrary choice.
- Devmm.CancelAllDevmmOrders: order sides and the grouping of a listing by side are not modelled; a NestEx listing is taken after its filter for the PEPEW market.
- Scheduler.StrategyScheduler.RunTick: runners may disable configs but nobody enables one during the tick; the strategy loop only; RunSchedulerTick adds the loop over DevMM configs. Cancelling a skipped config's orders has no modelled effect beyond its log entry.
- BalanceCache.EveryRun: calls for one key that overlap in time are excluded.
- Calendar.WindowsTile: times in the local years 0..99 are excluded, where Date.UTC moves the window (WindowContainsIff).
- WalletStore.RunKeeps: the status canceled is never written by this code and not modelled.
