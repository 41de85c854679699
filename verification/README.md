# Verified model of the trading engine's crash-prone and accounting cores

This Dafny project models four parts of the engine in which an incremental or crash-prone procedure has to agree
with a simple specification, and proves that it does, or proves exactly when it does not.

- **Durable broker orders** (`OrderJournal`, `OrderProtocol`, `OrderTruth`, `OrderConservation`, `OrderSafety`,
  `OrderSafetySteps`, `OrderTheorems`, `OrderListings`, `OrderPnl`, `BrokerTalk`, `AlpacaBroker`). The journal's two
  tables and the transactions that rewrite them run against an untrusted remote broker. Every commit and every network
  call is a step of its own, so a crash can fall between any two. `AlpacaBroker` is the worker in its own form, a
  class whose methods update the journal, the in-memory positions and the flags; each method is proved to take steps
  of the protocol only, so every theorem about runs holds of its state. `BrokerTalk` makes the journal a function of
  the conversation with the broker, so a method states which requests it makes and the journal it leaves, not just
  what it keeps.
- **Leased job queue** (`JobQueue`, `JobRuns`, `JobTheorems`, `DemoWorker`). `JobStore` performs each SQL
  transaction with its own loops and is proved against one function per transaction; `JobRuns` lets any number of
  clients, workers, recoveries and crashes interleave those functions.
- **Accounting** (`Cents`, `Revisions`, `Settlements`, `Distributions`, `Entitlements`, `DistributionBook`, `Borrow`,
  `Ledger`, `DistributionLedger`, `AccountingReplay`, `OverlaySeries`, `Valuation`). Largest-remainder allocation, supersession
  chains, distribution and borrow accruals, the idempotent ledger with its overlay, and two valuations with the
  drawdown.
- **Local portfolio cycle** (`PaperBroker`, `BatchRules`, `LiveTrader`, `MinuteBars`). Sizing under a capital cap, one
  batch at a time with opens before exits, the journal a restart rebuilds from, and the aggregation of live minutes.

Methods do not execute the functions that specify them: they test and compute on their own, and are proved equal. What
the specifying functions mean is stated beside them in plain terms, on rows, prices, shares and times.

## Assumptions

About the broker: fills only grow, up to the requested quantity; a terminal order never changes again; the two
bracket legs together fill no more than their parent; an answer is some past state of the order, never ahead of the
broker, and terminal only when the order is; the broker creates at most one leg of each kind per entry. Responses
may be lost, late or partial, cancels are acknowledgements only, and the broker may move at any time.

The listing of positions is a promise of its own, and no other theorem relies on it: it says what the broker held
when it was asked. A listing is part of the state, a market exit is written only on one that shows what the journal
expects, and a report recorded after it, or a crash, makes it void.

What keeps a flatten from overselling is proved twice, from different promises.

- From true listings (`OrderListings.FaithfulRun`): every listing is right when it is made, and both legs of a filled
  entry are known before the ticker is exited, as the program itself checks. Reports may come in any order.
- From ordered reports (`OrderSafety.InOrder`): a leg fill is recorded only after the parent's final fill. Listings may
  be wrong. Nothing of the kind is assumed for market exits.

One of the two is needed. `OrderTheorems.FlattenOversellsAfterTheRace` is a run in which the broker keeps every other
promise, and even makes the legs wait for their parent, but a later entry fill overwrites the remaining shares and the
listing is out of date by one leg fill (`OrderTheorems.ListingIsStale`); the flatten oversells by 40 shares. The guards
of `ClosePosition` let that exit pass (`AlpacaBroker.StaleListingClearsTheFlatten`). Without either promise a market
exit oversells exactly when the listing that cleared it showed more than is held
(`OrderListings.FlattenMatchesListing`).

Elsewhere: lease tokens are fresh, the queue's clock does not run backwards, a SQLite transaction is one atomic
step, hashing is injective, and arithmetic is exact (whole cents or reals); rounding to two digits is to the nearest
cent, ties to the even one.

## Where the code does less than one might expect

Each of these is a lemma with an exact condition or a concrete input.

- Share conservation holds if and only if no entry fill is recorded after an exit fill of the same trade
  (`OrderConservation.ConservationExactly`). A trade stays open exactly while it has shares if and only if none is
  recorded after it closed (`OrderConservation.OpenExactlyWhileHeld`), and its announcements stay true if and only if
  none is recorded after its close was announced (`OrderConservation.OneOpenAndOneClose`).
- A market exit sells exactly the position if and only if the listing that cleared it was right
  (`OrderListings.FlattenMatchesListing`).
- `allocate_cents` with target zero (future, cancelled and inherited distributions) raises exactly when some lot is
  worth at least a cent (`Distributions.ZeroTargetFailsExactly`).
- A windowed distribution matches its target exactly when the opening snapshot adds up
  (`Distributions.WindowedEquity`).
- A borrow period must not be cut into an empty piece: that piece forgets the carried balances
  (`Borrow.EmptyPieceForgets`).
- Cutting a borrow period changes something exactly when it cuts a conflict away: two different records of one payment
  id in different pieces make the uncut period unknown, while every piece is charged and both amounts are counted
  (`Borrow.CutsChangeNothing`, `Borrow.CutCountsBothRecords`).
- Results of successive revisions, payments and refunds leave the ledger at the signed target exactly when the equity
  moves of the overtaken results cancel: those with an earlier posted result for the same payment, or without a payment
  and of the same action, revision and time (`DistributionLedger.SettlementIsNeverSecondIncome`). A payment whose
  amount is corrected later is overtaken (`DistributionLedger.CorrectedPaymentIsDropped`).
- A posting the overlay refuses has already moved the accounts before the one that fails; it leaves the overlay alone
  exactly when it moves none of them (`PaperBroker.RefusalIsCleanExactly`).
- Preparing accounting events raises exactly when a missing and a textual logical key meet at one time
  (`AccountingReplay.PrepareAccountingEvents`).
- The broker's overlay equals the one restored from the ledger exactly when postings marked unavailable carry
  amounts that sum to zero (`PaperBroker.OverlayAgreesExactly`).
- Two events without a knowledge time get one key exactly when they have one label, and every event built with an empty
  logical key has the label "None" (`AccountingReplay.UnknownKnowledgeCollides`); the summary counts labels, not events
  (`AccountingReplay.UnknownsAreCountedByLabel`).
- The two valuations agree at a mark exactly when the outlays of trades closed before they were entered cancel
  (`Valuation.ValuationsAgreeExactly`).
- The drawdown percentage is the largest over all earlier-later pairs exactly when it also bounds, at every point below
  zero, the loss against the smallest positive equity before it (`Valuation.ShareIsPairwise`). It does while equity is
  not negative, and need not after that (`Valuation.ShareCanUnderstate`).
- A finished bar is never processed exactly when its batch lies outside session hours or is not later than an earlier
  batch within them (`MinuteBars.LateBarsAreIgnored`). An error raised by the trader while a minute closes a bar loses
  that minute (`MinuteBars.BarFeed.OnMinuteBar`).

## Model

| member | source | states |
|---|---|---|
| OrderJournal.ReportEffect | trades/alpaca_broker.py:266-301 | a recorded report rewrites one order row and at most the trade it names: fills never shrink, identity never changes, a leg takes the reported quantity as what it protects, the first entry fill appends one open trade of exactly the filled shares |
| OrderJournal.ReportAcceptedExactly | trades/alpaca_broker.py:326-350 | a report is recorded exactly if its fill is a whole number from what was recorded to what was requested, priced, complete if called filled, covered by a whole leg quantity, and for an exit no more than its trade has left |
| OrderJournal.ReportShares | trades/alpaca_broker.py:351-422 | a later entry fill resets remaining shares to the filled quantity; an exit fill moves exactly the new shares out of the trade and closes it exactly at zero |
| OrderJournal.ApplyReportKeepsLinks | trades/alpaca_broker.py:266-301 | the transaction keeps the cross references of the two tables (trade and entry order name each other, legs name their parent, quantities agree) |
| OrderJournal.RegisterLegKeepsLinks | trades/alpaca_broker.py:424-463 | persisting or linking a discovered leg keeps the cross references and never touches the parent |
| OrderProtocol.StepShaped | trades/alpaca_broker.py:155-324 | every step of the worker or the broker keeps both tables well formed |
| OrderTruth.RunKeepsBase | trades/alpaca_broker.py:201-343 | in every reachable state the journal never runs ahead of the broker, what it calls terminal is final there, and campaigns of one ticker follow one another |
| OrderTruth.OpenTradeIsLatest | trades/alpaca_broker.py:150-153 | an open trade always belongs to the latest entry of its ticker |
| OrderConservation.AtMostOnceSubmission | trades/alpaca_broker.py:201-206 | over any run with crashes anywhere each order is sent at most once, and a sent order is never again in a state from which it could be sent |
| OrderConservation.LookedUpNeverResent | trades/alpaca_broker.py:595-632 | an order past its intent is only looked up from then on, whatever responses are lost |
| OrderConservation.ConservationExactly | trades/alpaca_broker.py:351-422 | remaining shares equal shares bought minus shares sold over all exits if and only if no entry fill was recorded after an exit fill |
| OrderConservation.OpenExactlyWhileHeld | trades/alpaca_broker.py:391-416 | all through a run a trade is open exactly while it has shares if and only if no entry fill is recorded on it after it closed |
| OrderConservation.OneOpenAndOneClose | trades/alpaca_broker.py:278-293 | all through a run at most one open and one close of a trade are announced and an announced close is true, if and only if no entry fill is recorded after its close was announced |
| OrderConservation.NotLateMeansNeither | trades/alpaca_broker.py:372-377 | without an entry fill after an exit fill neither happens |
| OrderSafety.RemainderIsExact | trades/alpaca_broker.py:771-826 | when an exit intent is written, the journal's remaining shares are exactly what the broker still holds, with entry and both legs finished |
| OrderSafety.SettledMeansFlat | trades/alpaca_broker.py:150-153 | a settled ticker without an open trade is flat at the broker |
| OrderSafetySteps.StepKeepsSafe | trades/alpaca_broker.py:756-834 | every step, with leg fills recorded after the parent's final fill, keeps the safety invariant |
| OrderTheorems.PositionNeverChangesSign | trades/alpaca_broker.py:756-834 | if leg fills are recorded after the parent's final fill, the broker position is in every reachable state the unsold part of the latest campaign, on its side of zero |
| OrderTheorems.FlattenNeverOversells | trades/alpaca_broker.py:771-826 | if leg fills are recorded after the parent's final fill, a market exit leaves the process only when every other order of its ticker is finished at the broker, both legs included, and for exactly the position held, whatever the listings say |
| OrderTheorems.OrderlyRunsConserve | trades/alpaca_broker.py:266-422 | in orderly runs shares are conserved, open means held, and each end is announced once |
| OrderTheorems.JournalForgetsTheSale | trades/alpaca_broker.py:372-377 | without the order assumption a run exists in which a late entry fill restores 40 sold shares to the journal |
| OrderTheorems.FlattenOversellsAfterTheRace | trades/alpaca_broker.py:372-377 | that run, with a listing out of date by one fill, goes on to a flatten that leaves the position at minus 40 |
| OrderTheorems.ListingIsStale | trades/alpaca_broker.py:648-656 | the listing of that run was true before the leg sold 40 shares and is not when it clears the exit |
| OrderListings.EveryRunKeepsExitsLast | trades/alpaca_broker.py:150-153 | in every run a market exit is the last order of its ticker, with everything before it finished at the broker |
| OrderListings.ExitIsAsListed | trades/alpaca_broker.py:648-656 | in every run a market exit is for exactly what the listing that cleared it showed |
| OrderListings.FlattenMatchesListing | trades/alpaca_broker.py:806-826 | in every run, when a market exit leaves, all other orders of its ticker are finished at the broker; it sells exactly the position if and only if that listing was the position, and oversells exactly if the listing showed more than is held |
| OrderListings.LiveExitsCoverThePosition | trades/alpaca_broker.py:771-826 | with true listings, whatever the order of reports, the position is exactly what a live market exit has left to sell |
| OrderListings.TrueListingsNeverOversell | trades/alpaca_broker.py:771-826 | with true listings, whatever the order of reports, a market exit leaves only when all other orders of its ticker are finished, both legs included, and for exactly the position |
| Common.RoundEven2IsCents | trades/alpaca_broker.py:398-401 | rounding to two digits gives whole cents, leaves them alone, and sends half a cent to the even one |
| OrderPnl.BookedExit | trades/alpaca_broker.py:389-401 | booking one exit fill moves stored gross profit by what it moves the exact figure, up to half a cent |
| OrderPnl.PnlIsPathIndependent | trades/alpaca_broker.py:389-401 | for any interleaving of exit observations stored gross equals signed exit notional minus entry notional, less restatements, up to half a cent per fill |
| OrderPnl.NothingRestated | trades/alpaca_broker.py:389-401 | with stable prices and no late entry growth nothing is restated |
| OrderPnl.ClosingPriceIsAverage | trades/alpaca_broker.py:402-416 | the recorded exit price times shares is the exit notional up to the rounding of earlier fills |
| AlpacaBroker.RecordReport | trades/alpaca_broker.py:266-301 | the statements of the transaction compute exactly the specified tables and announcement, or refuse |
| BrokerTalk.HearBoth | trades/alpaca_broker.py:533-543 | the journal is a fold over the conversation with the broker: talking in two stages is talking once |
| BrokerTalk.NextReport | trades/alpaca_broker.py:464-468 | reports about legs are recorded one by one, and the first that is refused ends it |
| AlpacaBroker.StageLegs | trades/alpaca_broker.py:424-463 | all nested legs get a row or, on an unexpected type, none; the tables are those of one discovery step |
| BrokerTalk.TwoLegsAreBoth | trades/alpaca_broker.py:587-593 | counting two legs of a parent is knowing both kinds |
| AlpacaBroker.OneOpenPerTicker | trades/alpaca_broker.py:121-125 | the duplicate-position error cannot occur: two open trades of one ticker are the same trade |
| AlpacaBroker.StaleListingClearsTheFlatten | trades/alpaca_broker.py:648-690 | after the race a reconciliation that is shown the stale listing finds every condition of a market exit met |
| BrokerTalk.ConfirmsExposure | trades/alpaca_broker.py:648-656 | a listing is the expected exposure exactly if it shows every open trade's remaining shares and no other ticker |
| BrokerTalk.SyncsExactly | trades/alpaca_broker.py:609-621 | an unfinished order is looked up, or sent or withdrawn if it never left; of the finished ones exactly a filled entry with a leg unknown is looked up again |
| BrokerTalk.CancelsExactly | trades/alpaca_broker.py:505-531 | asked to cancel are exactly the unfinished flagged entries and unfinished legs of flagged entries with a known broker id |
| BrokerTalk.UnblockedExactly | trades/alpaca_broker.py:533-557 | the worker may trade after a reconciliation exactly if the conversation went well, the account answered, the listing shows every open trade and nothing else, every order is finished or a resting leg, and every open trade has a filled entry, a live target leg and a live stop leg, each for exactly the shares that remain |
| AlpacaBroker.AlpacaBroker.ReloadOpenPositions | trades/alpaca_broker.py:121-139 | memory becomes exactly the open rows, one per ticker, each with the exit wish of its trade or of a flagged entry |
| AlpacaBroker.AlpacaBroker.HasOpen | trades/alpaca_broker.py:150-153 | true exactly when the ticker has an open trade or a live order |
| AlpacaBroker.AlpacaBroker.Intent | trades/alpaca_broker.py:155-199 | exactly one durable intent row if the ticker is settled, otherwise the live order's row and nothing new |
| AlpacaBroker.AlpacaBroker.BeginSubmit | trades/alpaca_broker.py:201-206 | the unresolved state is committed before the request leaves |
| AlpacaBroker.AlpacaBroker.Submit | trades/alpaca_broker.py:201-247 | exactly one request leaves; journal, notices and block are what its answer makes of them, a lost or refused answer leaving the order unresolved; no new intent |
| AlpacaBroker.AlpacaBroker.MarkUnresolved | trades/alpaca_broker.py:249-264 | one row becomes unresolved and the worker is blocked, nothing else |
| AlpacaBroker.AlpacaBroker.ApplyBrokerOrderState | trades/alpaca_broker.py:266-324 | a report is applied in full with its announcement, exactly if it is valid, or refused with nothing changed |
| AlpacaBroker.AlpacaBroker.DiscoverLegs | trades/alpaca_broker.py:424-468 | all legs are persisted before any of their fills is applied, fills in order up to the first that is refused; rows that are not legs stay |
| AlpacaBroker.AlpacaBroker.ResolvePendingSubmission | trades/alpaca_broker.py:615-621 | an unsent intent flagged for flattening is cancelled locally without any request, any other is sent once |
| AlpacaBroker.AlpacaBroker.SyncOrderWithBroker | trades/alpaca_broker.py:595-613 | an order in need of it is looked up once, an unsent one sent or withdrawn, any other left alone, and the journal is what was heard |
| AlpacaBroker.AlpacaBroker.SyncAll | trades/alpaca_broker.py:539-543 | exactly one exchange per order in need, in table order over the earlier copies; afterwards none of them is pending submission |
| AlpacaBroker.AlpacaBroker.CancelFlattenEntries | trades/alpaca_broker.py:505-531 | exactly the live flagged entries and their legs are asked to cancel, one without a broker id blocks instead, and a refusal leaves the order unresolved |
| AlpacaBroker.AlpacaBroker.RequestSessionFlatten | trades/alpaca_broker.py:483-503 | exactly the live entries are flagged, nothing else changes |
| AlpacaBroker.AlpacaBroker.CompareWithBroker | trades/alpaca_broker.py:648-690 | safe to flatten exactly when unblocked, the listing shows the open trades and nothing else, and all orders are finished or resting legs; unblocked exactly when additionally every open trade has its filled entry and both live legs for exactly the remaining shares |
| AlpacaBroker.AlpacaBroker.ProtectionIntact | trades/alpaca_broker.py:669-690 | counting live legs and comparing what each protects finds exactly the trades with a filled entry, a live target and a live stop for all that remains |
| AlpacaBroker.AlpacaBroker.Reconcile | trades/alpaca_broker.py:533-557 | the whole conversation of one reconciliation and the verdict it leads to; ok only if every open trade is protected by both its legs and every order is settled or resting; no intent is ever created |
| AlpacaBroker.AlpacaBroker.OpenPosition | trades/alpaca_broker.py:698-740 | when every gate passes one entry intent of the sized shares and one request for it, whose answer is recorded; otherwise no effect and no request at all |
| AlpacaBroker.AlpacaBroker.SharesAreMost | trades/alpaca_broker.py:711 | an entry is for the most whole shares that the position's share of capital pays |
| AlpacaBroker.AlpacaBroker.ClosePosition | trades/alpaca_broker.py:756-834 | a stop or target exit does nothing; otherwise the wish is noted, one reconciliation runs, and one exit is sent exactly if that found the position open, safe, both legs known and every order of the ticker finished; the trade returned is the one sold, if it closed |
| AlpacaBroker.AlpacaBroker.ReadyToSell | trades/alpaca_broker.py:777-823 | true exactly if the position is open, flattening safe, both legs known and every order of the ticker finished |
| AlpacaBroker.AlpacaBroker.CancelActive | trades/alpaca_broker.py:791-818 | everything that can still trade the position is asked to cancel in table order, up to a market exit or the first refusal; true exactly if there is anything |
| AlpacaBroker.AlpacaBroker.Digest | trades/alpaca_broker.py:237-247 | an answer is recorded, legs included, and whatever cannot be recorded leaves the order unresolved |
| AlpacaBroker.AlpacaBroker.Conclude | trades/alpaca_broker.py:545-557 | the account is asked only if the listing came; safe, blocked and capital follow from what came back |
| AlpacaBroker.AlpacaBroker.Restart | trades/alpaca_broker.py:71-99 | after a crash at any point, also with a request on its way out, the next process starts valid on the same journal |
| JobQueue.JobStore.PreCheck | demo/jobs.py:239-249 | the unlocked look answers only what an atomic get-or-insert would |
| JobQueue.JobStore.LockedSubmit | demo/jobs.py:250-271 | the transaction is one get-or-insert on (owner, key), conflict reply included |
| JobQueue.JobStore.ClaimNext | demo/jobs.py:418-440 | the oldest queued job is leased to a fresh token until the lease's length from now, its attempt counted, or nothing changes |
| JobQueue.JobStore.Heartbeat | demo/jobs.py:453-466 | exactly if the token still holds it unexpired the lease runs on from now for its full length, and the time and phase are noted |
| JobQueue.JobStore.Complete | demo/jobs.py:468-512 | result row, artifact rows and completion commit together, exactly if the record matches, the token still leases the job, expired or not, and no id or path is used twice; otherwise all tables are as before |
| JobQueue.JobStore.Fail | demo/jobs.py:514-523 | the job fails exactly if the token holds it unexpired |
| JobQueue.JobStore.ConfirmCancelled | demo/jobs.py:525-535 | the job is cancelled exactly if the token holds it unexpired and a cancel is pending |
| JobQueue.JobStore.RequestCancel | demo/jobs.py:400-416 | a queued job is cancelled, a running one asked to, any other left as it is |
| JobQueue.JobStore.RecoverExpiredLeases | demo/jobs.py:537-570 | the loop does to every row what recovery does to it alone, and reports exactly the recovered jobs with their new states |
| JobQueue.JobStore.ListJobs | demo/jobs.py:295-324 | one page newest first below the cursor, with a next cursor exactly if more follow |
| JobQueue.NewestIsExact | demo/jobs.py:307-314 | the listing holds exactly the owner's rows, once each, newest first |
| JobRuns.RunKeepsInv | demo/jobs.py:400-570 | under any interleaving tables, attempts, directories and replies stay consistent |
| JobRuns.MoveKeepsRow | demo/jobs.py:400-570 | every transition keeps recorded times in order and ties lease, end and result to the state |
| JobTheorems.ExactlyOneResult | demo/jobs.py:468-512 | a job has at most one result, has one exactly when completed, and every recorded directory is published |
| JobTheorems.ResultsAreKept | demo/worker.py:344-362 | a recorded result and its published directory stay for ever |
| JobTheorems.RecoveryFences | demo/jobs.py:537-570 | recovering a lapsed lease fences its token; the job is cancelled if asked to, else queued again after a first attempt and failed after a second |
| JobTheorems.LapsedOnlyRecords | demo/jobs.py:442-451 | a lapsed lease not yet taken back allows its worker nothing but to record a result |
| JobTheorems.LeaseStarts | demo/jobs.py:418-466 | a claim or a heartbeat starts a lease of the length it asks for, now |
| JobTheorems.StepKeepsLease | demo/jobs.py:400-570 | while a lease runs no step by anyone else takes it, and recovery leaves its job as it is |
| JobTheorems.LeaseHolds | demo/jobs.py:453-466 | over any run a worker that claimed or beat keeps its job for the lease's whole length, whatever others do, unless it ends the job itself |
| JobTheorems.NotTakenBack | demo/jobs.py:537-570 | over any run no recovery within the time of a lease changes its job |
| JobTheorems.FencedNeverActs | demo/jobs.py:442-451 | whatever a process does with a token once taken back changes no job and no result |
| JobTheorems.TerminalIsFinal | demo/jobs.py:442-570 | a terminal row is never rewritten |
| JobTheorems.MovesLowerRank | demo/jobs.py:400-570 | every change but a heartbeat lowers the row's rank |
| JobTheorems.LifecycleEnds | demo/jobs.py:400-570 | however long the run a job makes at most seven transitions |
| JobTheorems.AtMostTwoClaims | demo/jobs.py:418-440 | every job is claimed at most twice, a lease exists exactly in active states, created, started, heartbeat and end are in order |
| JobTheorems.SubmitIsAtomic | demo/jobs.py:234-271 | over any run all replies, in their order, are those of a server that takes one caller at a time, and the rows are that server's table, whatever interleaves |
| JobTheorems.CallsAreAnsweredOnce | demo/jobs.py:234-271 | over any run every submitted call has exactly one reply or still waits, and nothing else is answered |
| JobTheorems.SubmitsAgree | demo/jobs.py:234-284 | all callers of one key agree: one request one job, created once, every other request conflicts |
| JobTheorems.StablePaging | demo/jobs.py:295-324 | following cursors to the end lists exactly the rows present when paging began, newest first, whatever is inserted in between |
| JobTheorems.PagingEnds | demo/jobs.py:295-324 | one request per full page and one more reach the end |
| JobTheorems.RunsGrow | demo/jobs.py:234-271 | tables seen later in any run only append rows and keep their requests |
| DemoWorker.DemoWorker.Supervise | demo/worker.py:283-324 | heartbeats while others interleave; a lost lease ends the attempt, a cancel seen stays asked for while the lease lasts |
| DemoWorker.DemoWorker.PublishAndRecord | demo/worker.py:344-362 | a result is recorded only with its directory published; a directory that goes unrecorded is removed, except after a rename whose final sync failed |
| DemoWorker.DemoWorker.RunOnce | demo/worker.py:240-262 | leases that had lapsed at the start are fenced at the claim, the oldest queued job is taken exactly if there is one, and the answer is true of the tables when it is given |
| DemoWorker.StepKeepsDeleted | demo/worker.py:344-362 | no step by anyone brings a deleted directory back |
| DemoWorker.StepKeepsAsked | demo/jobs.py:400-416 | a cancel request is not withdrawn while the lease lasts, and a token never comes back |
| Cents.RoundingIsNearest | trades/cashflows.py:37-42 | rounding is to the nearest cent, half a cent away from zero, symmetric in sign and exact on whole cents |
| Cents.AllocateCents | trades/cashflows.py:386-416 | refused exactly outside floor sum and floor sum plus one cent per lot, else floors plus a cent for the lots of largest remainder, ties by lot |
| Cents.RankLots | trades/cashflows.py:414-415 | lots ranked by remainder, largest first, ties by lot |
| Cents.AllocationSumsToTarget | trades/cashflows.py:386-416 | lots sum exactly to the target, each its floor or one cent more |
| Cents.RoundedSumIsNeverRefused | trades/cashflows.py:400-412 | allocating the rounded sum never fails |
| Cents.ZeroTargetRefused | trades/cashflows.py:410-412 | a zero target fails exactly when some lot is worth a cent |
| Cents.AllocationIsClosest | trades/cashflows.py:386-416 | no other whole-cent split of the target deviates less in total |
| Cents.OrderIsIrrelevant | trades/cashflows.py:386-416 | the outcome ignores the order of the lots |
| Revisions.Resolve | trades/cashflows.py:330-365 | an action is accepted exactly when its revisions form one unbranched supersession path, and then at its end |
| Revisions.AcceptedActions | trades/cashflows.py:323-366 | accepted revisions and conflicting ids, each action decided by its own records |
| Revisions.AcceptedIsUnique | trades/cashflows.py:347-365 | at most one revision of an action can be accepted |
| Revisions.SingleIsAccepted | trades/cashflows.py:344-346 | a single revision is accepted whatever it claims to supersede |
| Revisions.OrderAndDuplicatesIgnored | trades/cashflows.py:323-366 | the outcome depends on the set of records only |
| Revisions.LaterRecordsChangeNothing | trades/cashflows.py:643-660 | records not known by the decision time cannot change a causal result |
| Settlements.Dedupe | trades/cashflows.py:295-306 | first record per payment id, and a conflict exactly if two different records share one |
| Settlements.NetIsUniqueSum | trades/cashflows.py:559-562 | the net is the sum over the deduplicated records |
| Settlements.WindowsSplitNet | trades/cashflows.py:168-169 | consecutive windows split the net without loss or double count |
| Distributions.RoundedEntitlementAllocates | trades/cashflows.py:516-518 | in the branch that rounds the exact entitlement the lot allocation never fails |
| Distributions.ZeroTargetFailsExactly | trades/cashflows.py:498-508 | with a forced zero target it fails exactly when some lot's amount reaches a cent |
| Distributions.EquityIsTarget | trades/cashflows.py:559-624 | without a window cash settled plus balances owed equals the signed target, paid, refunded or not |
| Distributions.WindowedEquity | trades/cashflows.py:568-584 | with a window it does exactly when the opening snapshot adds up to the opening target, or to nothing without one |
| Entitlements.ForSide | trades/cashflows.py:419-624 | filtering, summing, deduplicating and allocating step by step compute the specified result of one side |
| Entitlements.BystanderChangesNothing | trades/cashflows.py:374-383 | a holding of another symbol or of no shares, entered at the ex time or later, or sold before it, changes nothing about either side |
| Entitlements.TargetIsEntitlement | trades/cashflows.py:419-518 | the target is the rounded sum of quantity times rate over exactly the side's holdings entered before the ex time and not sold before it; nothing for an action that is cancelled, later than the window, or older and carried on |
| Entitlements.CountsExactly | trades/cashflows.py:521-548 | the settlements that count are exactly those of the action, for the side or for none, that occurred in the window |
| Entitlements.WhatIsOwed | trades/cashflows.py:563-624 | opening balance and new target less the window's cash are owed on one account and never on both, with cash and income signed by side |
| DistributionBook.CalculateDistributions | trades/cashflows.py:643-682 | both sides of exactly the accepted actions and of those in conflict, each calculated from the holdings and the settlements known then; hidden are exactly the ids with records unknown by then and none accepted; it raises exactly if some allocation does |
| DistributionBook.BystanderKeepsBook | trades/cashflows.py:374-383 | a holding without part in any accepted action changes nothing in the book, nor whether it raises |
| DistributionBook.CausalBookIsFixed | trades/cashflows.py:636-660 | revisions and settlements that became known later change nothing in the book of a decision time |
| DistributionLedger.RefusedExactly | backtest.py:146-148 | the adapter refuses a sequence of results exactly when some result counts several payments |
| DistributionLedger.StreamTelescopes | backtest.py:149-176 | the differences of successive results add up to the equity of the last |
| DistributionLedger.SettlementIsNeverSecondIncome | backtest.py:125-176 | over any sequence of revisions, payments and refunds, long or short, the ledger ends at the signed target of the last result exactly when the equity moves of the overtaken results cancel |
| DistributionLedger.NamedPaymentsDecide | db/logger.py:311-344 | with non-empty payment ids a result is overtaken exactly if an earlier one moved cash for the same payment, or neither did and action, revision and time agree |
| DistributionLedger.DistinctPostingsShowTarget | analytics/research_review.py:194-235 | if no key and no payment repeats, the ledger ends at that target |
| DistributionLedger.SidesNeverCollide | backtest.py:152-171 | the two sides of an action never post under one key, unless both move cash for the same payment |
| DistributionLedger.KeysCollideExactly | db/logger.py:311-344 | two results post under one key exactly when both move cash for one payment, or neither does and action, revision and occurrence are the same |
| DistributionLedger.CorrectedPaymentIsDropped | db/logger.py:453-475 | a payment corrected later is not posted again: the ledger keeps its first cash |
| Borrow.PostDays | trades/cashflows.py:773-786 | the day loop posts what moves the rounded running total, and their sum |
| Borrow.CalculateBorrow | trades/cashflows.py:700-887 | all branches of the charge, unknown reasons included, as one function of its inputs |
| Borrow.FeeIsDaysOfRate | trades/cashflows.py:773-787 | what is charged times the denominator is days times quantity times price times annual rate, so a full year costs exactly that; what is posted is the rounded running total |
| Borrow.PostingsSum | trades/cashflows.py:779-786 | postings telescope to the rounded total |
| Borrow.PrefixWithinHalfCent | trades/cashflows.py:779-786 | after any number of days the posted total is within half a cent of the exact fee |
| Borrow.PostedFeeIsExpense | trades/cashflows.py:861-887 | posted fee, expense and target delta are the same, and the books end within half a cent of exact |
| Borrow.WindowedAgrees | trades/cashflows.py:860-870 | windowed and unwindowed balances agree exactly when the opening balances are rounded total less settled |
| Borrow.CutsChangeNothing | trades/cashflows.py:773-870 | any cut into consecutive non-empty pieces, carrying totals and closing balances, ends with the uncut postings, totals and payable, or unknown as that is, if and only if no conflict is cut away |
| Borrow.CutCountsBothRecords | trades/cashflows.py:796-812 | a concrete period that is in conflict uncut and counts both records of one payment id when cut |
| Borrow.CutsEndUnwindowed | trades/cashflows.py:700-887 | from unused books any cut of a period that holds all settlements ends exactly where the charge without a window ends, unless a conflict is cut away |
| Borrow.EmptyPieceForgets | trades/cashflows.py:720-737 | an empty piece keeps the books exactly when there was nothing to forget |
| Ledger.LedgerStore.RecordCashflowPosting | db/logger.py:402-481 | append once, answer repeats as duplicates, amounts compared as written, quarantine contradictions once per key and payload |
| Ledger.LedgerStore.CashflowSummary | db/logger.py:541-546 | exact balances over all rows and the unavailable count |
| Ledger.PostedAtMostOnce | db/logger.py:431-481 | for any stream each logical key and each payment id is posted at most once |
| Ledger.NothingIsLost | db/logger.py:402-481 | every posting supplied is a row, a repeat of a posted payment or in quarantine |
| Ledger.RecordedInFullExactly | db/logger.py:402-481 | a stream is recorded in full exactly when no key and no payment id repeats in it |
| Ledger.PaymentsAreNotRepeated | db/logger.py:453-475 | a payment id once posted is not posted again, whatever comes with it |
| Ledger.BooksAndDropped | db/logger.py:541-546 | what was supplied is what is on the books and what was dropped, account by account |
| Ledger.CoveredAreDropped | db/logger.py:431-481 | for every stream the rows are exactly the postings with no earlier recorded one of the same key or payment, in order, and the others are what is dropped |
| Ledger.CoveredIsTaken | db/logger.py:431-481 | where one payment means one key, exactly the first posting of every key is recorded |
| Ledger.ReplayChangesNothing | db/logger.py:402-481 | replaying earlier events in any order changes no row and no balance |
| AccountingReplay.PrepareAccountingEvents | backtest.py:219-254 | every event once, ordered by availability, key and place; never before occurrence or knowledge, without value if the knowledge time is missing; a comparison of the sort raises exactly when a missing and a textual key meet at one time |
| AccountingReplay.TextLessAt | backtest.py:252-254 | keys of one time are compared by their first difference, a smaller character or an end |
| AccountingReplay.OrderIsUnique | backtest.py:252-254 | the order leaves no choice: two orderings of the same events are the same |
| AccountingReplay.AccountingRun.ApplyAccountingEvents | backtest.py:257-274 | exactly the events available through the boundary are posted, in order and once each, and the overlay keeps tracking the ledger |
| AccountingReplay.AccountingRun.RestoreInto | trades/executor.py:124-159 | a broker restored from the summary agrees with the running one exactly when skipped postings add up to nothing, so always when every applied posting marked unavailable carries nothing |
| AccountingReplay.UnknownKnowledgeCollides | backtest.py:225-247 | two events without knowledge time get one key exactly when they have one label; the second is inserted, a duplicate or a conflict exactly as stated, and counted only if inserted |
| AccountingReplay.UnknownsAreCountedByLabel | backtest.py:225-247 | over a whole replay the summary counts exactly as many events without knowledge time as they have labels |
| OverlaySeries.AccountingEquitySeries | analytics/research_review.py:194-235 | at every mark the equity of what had occurred by the latest mark so far, by its own mark if marks ascend, repeats and unavailable flows left out, whatever order the flows came in |
| OverlaySeries.SeriesEndsAtOverlay | analytics/research_review.py:194-235 | without repeats the series ends at the broker's running overlay |
| Valuation.MarkedEquity | analytics/research_review.py:295-319 | the equity loop computes the sum of marked contributions at every mark, or reports a missing price |
| Valuation.CashPrincipalEquity | analytics/research_review.py:238-282 | cash, market value and bridge arrays sum to the cash contributions at every mark |
| Valuation.ValuationsAgreeExactly | analytics/research_review.py:328-334 | the two valuations agree at a mark exactly when outlays of trades closed before entry cancel there |
| Valuation.ForwardTradesAgree | analytics/research_review.py:328-334 | they agree at every mark when no exit precedes its entry |
| Valuation.MaxDrawdown | analytics/metrics.py:38-55 | one pass finds the largest decline over all earlier-later pairs and the largest share of the running peak |
| Valuation.ShareIsPairwise | analytics/metrics.py:53-54 | the one-pass share is the largest over all earlier-later pairs exactly when it bounds, at every point below zero, the loss against the smallest positive equity before |
| Valuation.ShareCanUnderstate | analytics/metrics.py:53-54 | with negative equity it need not: a concrete curve |
| PaperBroker.SharesFitBudget | trades/executor.py:184-185 | sized shares never cost more than the budget and leave less than one unit |
| PaperBroker.SharesAreMost | trades/executor.py:181-185 | a number of shares fits exactly if it costs no more than the position's share of the sizing capital and no more than what is not reserved, and what is bought is the most that fits |
| PaperBroker.ReservedWithout | trades/executor.py:62-66 | reservations are a sum over positions in any order |
| PaperBroker.ExitsAreCausal | trades/tracker.py:14-37 | protective exits fill inside the touching bar, stops never better and targets never worse than their level, stop first |
| PaperBroker.ExitsAreTouches | trades/tracker.py:14-37 | a position exits exactly if the bar does not lie strictly between its levels, at the stop exactly if that was touched |
| PaperBroker.PaperBroker.OpenPosition | trades/executor.py:169-204 | fills exactly when every gate passes, with all the whole shares the budget buys, for no more than was available, reserving exactly its cost |
| PaperBroker.CostIs | trades/executor.py:21-24 | a side costs half the spread and the slippage of its notional and a fee per share |
| PaperBroker.ResultIsEarned | trades/executor.py:212-229 | the booked result is within half a cent of shares times the price move in the trade's direction, less the costs of both sides |
| PaperBroker.OppositesCancel | trades/executor.py:212-229 | without costs a long and a short of the same prices and shares add up to zero |
| PaperBroker.PaperBroker.ClosePosition | trades/executor.py:206-248 | capital moves by the net result, within half a cent of exit less entry for a long and entry less exit for a short, times shares, less both costs, and the position is gone; an invalid price changes nothing |
| PaperBroker.PaperBroker.ApplyAccountingPosting | trades/executor.py:85-108 | unavailable postings are counted and block; others move every account, or stop at the first that would go negative with the ones before it already moved |
| PaperBroker.PaperBroker.RestoreAccountingState | trades/executor.py:124-159 | the overlay becomes the summary, or stops at the first negative account with the ones before it already replaced |
| PaperBroker.RefusalIsCleanExactly | trades/executor.py:101-108 | a refused posting leaves the overlay alone exactly when it moves no account before the one that fails |
| PaperBroker.OverlayAgreesExactly | trades/executor.py:85-108 | running and restored overlay are equal exactly when skipped postings sum to zero |
| LiveTrader.MirrorsUnique | live/trader.py:101-123 | the journal determines the open positions |
| BatchRules.FillsAreDetermined | live/trader.py:421-465 | the entries of a batch are determined by what it began with and the opens alone, never by its exits |
| BatchRules.EntersExactly | live/trader.py:421-465 | who enters at an open, in terms of candidate, clock, session, levels and budget alone |
| BatchRules.LeavesExactly | live/trader.py:466-525 | who leaves at a bar and how: levels touched, else an exit wished for or a due flatten at the close while the session goes on |
| BatchRules.QueuesExactly | live/trader.py:527-582 | which proposals become pending, in terms of candidate, session, positions and exits alone |
| BatchRules.BatchBooksEarnings | live/trader.py:466-525 | a batch books the exact earnings of the positions that leave, up to half a cent each |
| LiveTrader.LiveTrader.FillPending | live/trader.py:423-465 | a pending entry is consumed by its symbol's bar and fills at the open exactly when it may, with all the shares the budget buys then |
| LiveTrader.LiveTrader.FillEntries | live/trader.py:421-465 | every pending entry with a bar has its turn in symbol order, and all that fill together cost no more than was unreserved at the start |
| LiveTrader.LiveTrader.WatchPosition | live/trader.py:466-525 | protective exit first at level or gap price, then a due flatten at the close, else only the new count is saved |
| LiveTrader.LiveTrader.WatchPositions | live/trader.py:466-525 | exactly the positions that leave are closed, in symbol order, with their trades and profit booked; the rest are counted; it fails exactly on an unusable price |
| LiveTrader.LiveTrader.QueueEntries | live/trader.py:527-582 | exactly the accepted candidates become pending, in memory and journal alike |
| LiveTrader.LiveTrader.ProcessBatch | live/trader.py:386-592 | admitted batches have strictly increasing times, are not admitted twice, and bars of several times are an error; turns at the open, exits and proposals are exactly the specified ones; capital moves by the earnings of the positions that left, up to half a cent each; after a completed batch memory is what the journal rebuilds; its entries fit the capital unreserved at its start |
| LiveTrader.LiveTrader.MarkSessionClose | live/trader.py:304-307 | when flattening is due exactly every open position is marked to leave, in memory and journal alike |
| LiveTrader.LiveTrader.Rebuild | live/trader.py:101-132 | rebuilding gives the same capital, positions and pending entries wherever memory agreed with the journal |
| MinuteBars.AggregateIsBatch | live/trader.py:190-207 | minute-by-minute aggregation is first open, highest high, lowest low, last close, total volume |
| MinuteBars.BucketFills | live/trader.py:209-236 | a bucket with five clock minutes holds every minute of its window, and none holds more |
| MinuteBars.BarFeed.OnMinuteBar | live/trader.py:176-207 | accepts exactly the new in-session minutes; every bar so far is the aggregate of all five accepted minutes of its window, each symbol in increasing order; closes the old bucket exactly when the window changes; batches handed on stay so; an error raised meanwhile loses the minute and nothing else |
| MinuteBars.BarFeed.Finish | live/trader.py:209-236 | a closed bucket becomes a bar exactly if it has all five minutes, and then the complete ready times go on until the trader raises |
| MinuteBars.BarFeed.DrainReady | live/trader.py:238-243 | ready times are handed on earliest first, all when forced, else up to the first incomplete one, or up to the one that raises; none is lost or handed on twice |
| MinuteBars.HandOn | live/trader.py:238-243 | handing a time on moves its bars: every finished bar waits or was handed on, never both |
| MinuteBars.ListBar | live/trader.py:231-236 | a finished bar starts to wait exactly once |
| MinuteBars.BarFeed.Tick | live/trader.py:282-289 | exactly the overdue buckets are closed and every finished bar has been handed on, or up to the symbol or batch that raises; what was finished or handed on stays so |
| MinuteBars.LateBarsAreIgnored | live/trader.py:386-403 | a finished bar is in one batch only, and is processed exactly if that lies in session hours and is later than every earlier batch in session hours |

## Left out

- Entries without a bracket, and the legacy and migrated rows that can still hold them: every modeled entry is a bracket.
- The Alpaca SDK, HTTP, websockets, subprocesses, signals, file contents, logs and alerts: network and worker steps answer nondeterministically instead.
- SQLite, JSON and hashing details: tables are sequences, a transaction is one step, keys are compared as values.
- Floating point, the one-billionth tolerance for negative balances and Decimal context precision: amounts are exact.
- OrderPnl.PnlIsPathIndependent: speaks of exit fills with positive quantity; fees are outside because the paper account records none.
- AlpacaBroker.AlpacaBroker.ReloadOpenPositions: an exit wish is kept as a flag; its reason text is not, because only the trader reads it.
- The table of broker observations: telemetry that changes no order, trade or verdict.
- JobRuns: the ids of results and artifacts are fresh and records match, so recording fails by a lost lease only; a worker that any other error stops is a crash at that point.
- Accounting coverage rows are one count known before the first posting; repeated coverage keys are outside.
- LiveTrader.LiveTrader.ProcessBatch: indicator windows, regime and signal synthesis are arbitrary candidates; a crash inside a batch is covered by rebuilding from the journal, not by the batch.
- Exchange calendars and time zones: a session is an arbitrary pair of bounds per time, and the UTC day stands for the date.
- The Alpaca branch of the trader cycle, the shadow trader, the experimental store and the research statistics: smaller variants or statistics that would add easy members only.
- MinuteBars.LateBarsAreIgnored: what the trader does with a batch is reduced to its watermark; `LiveTrader.ProcessBatch` has the batch itself.
- The adapter from borrow results to postings: a smaller variant of the distribution adapter.
