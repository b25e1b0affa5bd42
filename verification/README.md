# Verification model of the order lifecycles and the arithmetic under them

The project models, in Dafny, the parts of the farmer in which a wrong step costs money or breaks a promise:

* the **intent lifecycle** of the Extended test network: a durable table of entry, cancel and close intents with one
  lifecycle word, driven by prepare, claim and reconcile against arbitrary venue evidence
  (`Intents`, `LifecycleSpec`, `LifecycleInvariant`, `LifecycleTheorems`, `ExtendedLifecycle`, `VenueEvidence`, `OrderGate`);
* the **sealed runner**: the same protocol as a sequential program on a write-ahead file, with ambiguous writes, bounded reads
  and death of the process at any point (`SealedVenue`, `SealedStore`, `SealedRunner`);
* the **paper position engine**: exit-order versions, trade accumulation, data gaps, funding that matures after the close and
  the recomputed profit (`Funding`, `PaperMarket`, `PaperEngine`, `PaperDesk`, `PaperInvariant`, `PaperSteps`, `PaperTheorems`,
  `PaperLifecycle`);
* the **order book stream** against a replay of everything the venue did (`OrderBooks`, `BookReplay`, `BookStreams`);
* **exact arithmetic**: two rational least-common-multiple algorithms, the common quantity, and the volume-weighted price
  (`Rationals`, `QuantitySteps`, `DepthVwap`);
* **one-shot journals**: the account-shape witness with its redacting descriptor, the Extended private read over a stream or
  by its REST fallback, and the bounded mainnet private read (`ShapeDescriptor`, `ShapeTheorems`, `Effects`, `WitnessLedger`,
  `WitnessRun`, `PrivateReadLedger`, `PrivateRead`, `MainnetRead`).

Classes that the program updates in place are classes here, each method proved to leave exactly the state its specification
function gives; the promises are then proved of those functions over whole runs. Code that only computes is functions and lemmas.

Conventions. `Decimal` values are exact reals, and fractions are pairs of positive integers: the 28-digit context rounding of the
program, and the 50 digits of `_fraction_to_decimal`, are abstracted. A committed transaction is one atomic step. Venue
evidence, clocks, signatures, random identities and network replies are arbitrary inputs. A call may die before or after any
transaction or request it makes. Digests are ideal: equal exactly for equal payloads. Bounded reads, page limits, time limits and
error conditions are those of the program; error texts are kept where the program branches on them.

One place where the code does not do what its figures suggest: `mark_extended_history_unresolved` rewrites a settlement row without
recomputing a closed trade. `PaperTheorems.MarkAfterCloseDiverges` gives a closed position for which the stored net then no longer
follows from the rows, and `PaperTheorems.MarkAfterClose` says exactly when it still does.

## Model
| member | source | states |
|---|---|---|
| LifecycleInvariant.RunKeeps | src/risex_farmer/extended_testnet_lifecycle.py:987-2053 | Every state of every run from a new store, whatever the evidence and wherever a call stops after one of its transactions, satisfies one invariant: the lifecycle word fixes which intents exist and in which states, every row is well-formed, identities are distinct, and cancellation and close point at the entry. |
| LifecycleInvariant.StepKeeps | src/risex_farmer/extended_testnet_lifecycle.py:1009-1086 | Any committed prefix of any operation keeps that invariant. |
| LifecycleInvariant.PrepareEntryKeeps | src/risex_farmer/extended_testnet_lifecycle.py:1340-1399 | A prepared entry is committed in one transaction as the only row, FLAT to ENTRY_PREPARED, with its quantity, price and payload passed by the entry checks and the order gate, and the invariant holds. |
| LifecycleInvariant.PrepareCancellationKeeps | src/risex_farmer/extended_testnet_lifecycle.py:1441-1497 | A prepared cancellation targets the entry by its external id, once, and keeps the invariant. |
| LifecycleInvariant.PrepareCloseKeeps | src/risex_farmer/extended_testnet_lifecycle.py:1531-1603 | A prepared close is committed in one transaction: reduce-only, as large as the agreed position (which a partial fill leaves smaller than the entry), on its other side, passed by the order gate; at most one exists, and the invariant is kept. |
| LifecycleInvariant.ClaimKeeps | src/risex_farmer/extended_testnet_lifecycle.py:1401-1439 | A claim commits nothing or one table in which exactly the prepared row of that id has become CLAIMED with dispatch count one more, and keeps the invariant. |
| LifecycleInvariant.PlanEntryKeeps | src/risex_farmer/extended_testnet_lifecycle.py:1773-1811 | Every commit of an entry reconciliation (exposed, partial, sub-minimum, off-grid, retry) keeps the invariant. |
| LifecycleInvariant.PlanCancelKeeps | src/risex_farmer/extended_testnet_lifecycle.py:1813-1893 | Every commit of a cancel reconciliation keeps it, the edge from FLAT_PENDING_EXPIRY back to EXPOSED and the relabelled superseded cancel included. |
| LifecycleInvariant.PlanCloseKeeps | src/risex_farmer/extended_testnet_lifecycle.py:1916-1971 | Both commits of a close reconciliation, the one that marks and the one that completes, keep it. |
| LifecycleInvariant.ReconcileKeeps | src/risex_farmer/extended_testnet_lifecycle.py:2010-2053 | Reconciliation as a whole, route check and halting included, keeps it after each of its transactions. |
| LifecycleInvariant.ReconcileCommits | src/risex_farmer/extended_testnet_lifecycle.py:1992-2053 | What a reconciliation commits is nothing, its plan, or the plan's prefix followed by one halt. |
| LifecycleTheorems.RunCompletesProvenFlat | src/risex_farmer/extended_testnet_lifecycle.py:1531-1971 | In every run that is COMPLETE, one reconciliation's evidence had no position, no open order, every clock past the latest expiry, and fills of signed quantity zero: none at all, or exactly the entry's and the close's, equal in quantity and opposite in side. Fill ids are unique, as the normalizer enforces. |
| LifecycleTheorems.CompletionIsProvenFlat | src/risex_farmer/extended_testnet_lifecycle.py:1813-1971 | No operation but a reconciliation sets COMPLETE, and only on evidence that proves the account flat. |
| LifecycleTheorems.CloseMeansClosedOut | src/risex_farmer/extended_testnet_lifecycle.py:1895-1971 | A close accepted as final partitions the fills exactly into entry fills and close fills, each filled in full. |
| LifecycleTheorems.EveryFillAccounted | src/risex_farmer/extended_testnet_lifecycle.py:1895-1914 | Final identities account for every fill: each one names a persisted order by external id and by venue order id. |
| LifecycleTheorems.NamesExactly | src/risex_farmer/extended_testnet_lifecycle.py:1606-1613 | A fill carries a persisted order's external id exactly when it carries the venue id of that order's final history row. |
| LifecycleTheorems.ClosedOutIsNet | src/risex_farmer/extended_testnet_lifecycle.py:1634-1707 | Entry and close fills of equal total on opposite sides have signed quantity zero. |
| LifecycleTheorems.CancelMeansFlat | src/risex_farmer/extended_testnet_lifecycle.py:1813-1893 | Completion on the cancel path means no fill at all. |
| LifecycleTheorems.TerminalIsAbsorbing | src/risex_farmer/extended_testnet_lifecycle.py:1138-1144 | COMPLETE and every HALTED word commit nothing, whatever is asked of them. |
| LifecycleTheorems.FailureOnlyHalts | src/risex_farmer/extended_testnet_lifecycle.py:2010-2053 | A failed reconciliation leaves all rows alone; a transient failure changes nothing; any other may only halt. |
| LifecycleTheorems.RunNeverReuses | src/risex_farmer/extended_testnet_lifecycle.py:1009-1078 | Over any run rows are only appended, nonces and external ids never repeat, there is at most one entry, one cancellation and one close, each dispatched at most once, three dispatches in all; an order has count 1 exactly when it is no longer PREPARED, and a cancellation with count 1 is no longer PREPARED. |
| LifecycleTheorems.RunLossBound | src/risex_farmer/extended_testnet_lifecycle.py:1224-1292 | A run that completes did so on evidence whose realised loss is at most the worst cash flow of both limits and fee rates, or without any fill. |
| LifecycleTheorems.CompletedLossBound | src/risex_farmer/extended_testnet_lifecycle.py:1634-1707 | For a bought entry cost is at most qty*pe*(1+re) - qty*pc*(1-rc), mirrored for a sold one, by summing the per-fill limit and fee checks. |
| LifecycleTheorems.CashOutBound | src/risex_farmer/extended_testnet_lifecycle.py:1634-1707 | Fills that each pass the binding and arithmetic checks cost at most the limit notional with the fee rate applied. |
| LifecycleTheorems.CrashResume | src/risex_farmer/extended_testnet_lifecycle.py:1950-1971 | Stopping between the two transactions of a close and reconciling the same evidence again reaches the store the uninterrupted call reaches. |
| LifecycleTheorems.CloseProofResumes | src/risex_farmer/extended_testnet_lifecycle.py:1916-1949 | The proof a close rests on does not depend on whether the close is already marked reconciled. |
| LifecycleTheorems.MarkedClose | src/risex_farmer/extended_testnet_lifecycle.py:1080-1086 | Marking the close is idempotent and changes no other row. |
| OrderGate.GatedOrderIsFillable | src/risex_farmer/extended_testnet_lifecycle.py:1184-1292 | An order the gate lets through has a full-quantity price on the other side of the book, at its limit or better. |
| OrderGate.FrontWithinLimit | src/risex_farmer/extended_testnet_lifecycle.py:1259-1273 | On best-first levels, quantity executable at a limit is quantity the front of the book gives at that limit or better. |
| OrderGate.ValidatedLevels | src/risex_farmer/extended_testnet_lifecycle.py:1184-1217 | A validated side of the book is positive and strictly best first. |
| ExtendedLifecycle.IntentStore.Insert | src/risex_farmer/extended_testnet_lifecycle.py:1009-1055 | One transaction inserts the row under the expected word, or refuses and changes nothing; the commit is logged. |
| ExtendedLifecycle.IntentStore.Claim | src/risex_farmer/extended_testnet_lifecycle.py:1057-1078 | One transaction claims the prepared row under the expected word, or refuses and changes nothing. |
| ExtendedLifecycle.IntentStore.SetStates | src/risex_farmer/extended_testnet_lifecycle.py:1080-1086 | One transaction sets the given states and the word together. |
| ExtendedLifecycle.ExtendedLifecycle.PrepareOrder | src/risex_farmer/extended_testnet_lifecycle.py:1340-1399 | Commits in one transaction, and returns, exactly the intent that the specified checks let through, or refuses with their error and commits nothing. |
| ExtendedLifecycle.ExtendedLifecycle.PrepareCancellation | src/risex_farmer/extended_testnet_lifecycle.py:1441-1497 | Commits in one transaction, and returns, exactly the cancellation that the specified checks let through, or refuses and commits nothing. |
| ExtendedLifecycle.ExtendedLifecycle.PrepareClose | src/risex_farmer/extended_testnet_lifecycle.py:1531-1603 | Commits in one transaction, and returns, exactly the close that the specified checks let through, or refuses and commits nothing. |
| ExtendedLifecycle.ExtendedLifecycle.ClaimForDispatch | src/risex_farmer/extended_testnet_lifecycle.py:1401-1439 | Commits exactly the specified claim in one transaction, or refuses with the error of the specified checks and commits nothing. |
| ExtendedLifecycle.ExtendedLifecycle.CheckFills | src/risex_farmer/extended_testnet_lifecycle.py:1634-1707 | The loop over fills with running totals decides as the quantifier-style specification does, error by error. |
| ExtendedLifecycle.ExtendedLifecycle.FillsBindPersisted | src/risex_farmer/extended_testnet_lifecycle.py:1973-1990 | The dictionary-building loop decides whether every fill names a persisted order under one external id per venue id. |
| ExtendedLifecycle.ExtendedLifecycle.CheckFinalIdentities | src/risex_farmer/extended_testnet_lifecycle.py:1895-1914 | The loop over persisted orders gathers exactly the history ids and fill ids that may exist. |
| ExtendedLifecycle.ExtendedLifecycle.ReconcileEntry | src/risex_farmer/extended_testnet_lifecycle.py:1773-1811 | Result and transactions of an entry reconciliation are those of its plan. |
| ExtendedLifecycle.ExtendedLifecycle.ReconcileCancel | src/risex_farmer/extended_testnet_lifecycle.py:1813-1893 | Result and transactions of a cancel reconciliation are those of its plan. |
| ExtendedLifecycle.ExtendedLifecycle.ReconcileClose | src/risex_farmer/extended_testnet_lifecycle.py:1916-1971 | Result and both transactions of a close reconciliation are those of its plan, in order. |
| ExtendedLifecycle.ExtendedLifecycle.Reconcile | src/risex_farmer/extended_testnet_lifecycle.py:2010-2053 | The reconcile entry point returns and commits what the specification says, halts included. |
| SealedRunner.ProcessStarts | src/risex_farmer/extended_testnet_lifecycle_operational.py:943-977 | Over any number of process starts on one file, each dying wherever it may, at most two writes leave, one per intent, never a cancellation and a close together; each left with its CLAIMED row and dispatch count 1 durable, an order with the exact payload and digest that name its own terms, a cancellation with the venue id of the persisted entry it targets. |
| SealedRunner.FixtureRun | src/risex_farmer/extended_testnet_lifecycle_operational.py:2464-2504 | A start on a begun file sends and changes nothing; a report means COMPLETE, a completed journal, the final barrier and the proof its status rests on; a failure that is survived leaves the halted word and a blocked journal. |
| SealedRunner.SendsAreBounded | src/risex_farmer/extended_testnet_lifecycle_operational.py:775-835 | What the durable rows and the sends satisfy bounds the sends by two and keeps their roles apart. |
| SealedRunner.SuccessMeansNetFlat | src/risex_farmer/extended_testnet_lifecycle_operational.py:2142-2201 | SUCCESS_CLOSED_FLAT rests on one entry and one close whose trades, when classified FILLED, sum to one quantity on opposite sides within their limits, and on two final rounds without orders or positions whose trade ids are exactly theirs. |
| SealedRunner.SealedLifecycleRunner.Run | src/risex_farmer/extended_testnet_lifecycle_operational.py:2400-2439 | From an empty file a run makes at most two writes; any report means the barrier passed; a success report carries the full proof of both fills, and a no-fill report an observation that showed the entry ended without any trade or position. |
| SealedRunner.SealedLifecycleRunner.FinalBarrier | src/risex_farmer/extended_testnet_lifecycle_operational.py:2322-2383 | Passes only with the clock read past every expiry before two ordered agreeing observations that show no orders, no positions and exactly the expected trades, and no outstanding intent. |
| SealedRunner.SealedLifecycleRunner.Observe | src/risex_farmer/extended_testnet_lifecycle_operational.py:2004-2012 | An observation is handed on only if the account is active, no unrelated order, trade or position is in it, and it is fresh at a clock reading taken after it. |
| SealedRunner.SealedLifecycleRunner.CheckRound | src/risex_farmer/extended_testnet_lifecycle_operational.py:2347-2377 | The loop over one final round decides and gathers exactly what its specification says. |
| SealedRunner.SealedLifecycleRunner.DispatchSignedOrder | src/risex_farmer/extended_testnet_lifecycle_operational.py:2088-2140 | Claims, signs, validates and binds before at most one write, whose payload passed the validation against its own row, and touches no row but its own. |
| SealedRunner.SealedLifecycleRunner.ClaimAndBind | src/risex_farmer/extended_testnet_lifecycle_operational.py:2088-2118 | Returns only with the row claimed once, its payload passed by the validation against the row and the identity and durable with it, and nothing sent for it yet. |
| SealedRunner.SealedLifecycleRunner.DispatchCancel | src/risex_farmer/extended_testnet_lifecycle_operational.py:2236-2279 | At most one write leaves: the claimed cancellation with the venue id recorded for the entry; no row changes its identity or a venue id it has. |
| SealedRunner.SealedLifecycleRunner.ResolveAndClassify | src/risex_farmer/extended_testnet_lifecycle_operational.py:2142-2201 | What each verdict rests on in the last observation: FILLED on fills of the row's quantity, side, price and the position; NO_FILL on an ended order without trades or positions, with the row marked so; OPEN on a resting order whose trades add up; UNSEEN on no such order. OPEN and UNSEEN change nothing but a venue id learnt; one more observation is taken only when the id is learnt. |
| SealedRunner.SealedLifecycleRunner.Reconcile | src/risex_farmer/extended_testnet_lifecycle_operational.py:2203-2218 | Five attempts at most, hence at most six observations and five once the venue id is known; the verdict is never UNSEEN and rests on the new last observation. |
| SealedRunner.SealedLifecycleRunner.PrepareClose | src/risex_farmer/extended_testnet_lifecycle_operational.py:2281-2320 | The one row added is a reduce-only close of the entry's size on the other side at the best bid, which has room for it, within the cap and the price limits, expiring 15 seconds after a clock reading, on an observation that was fresh, with a fresh identity. |
| SealedRunner.SealedLifecycleRunner.PrepareEntry | src/risex_farmer/extended_testnet_lifecycle_operational.py:2051-2086 | The one row added to an empty table buys the market's minimum size at the best ask, with depth on both touches, within the cap and the price limits, affordable in and out with fees, expiring 15 seconds after a clock reading, on an observation that was fresh, with a fresh identity. |
| SealedRunner.SealedLifecycleRunner.PrepareCancel | src/risex_farmer/extended_testnet_lifecycle_operational.py:2220-2234 | The one row added is a cancellation of the entry with a fresh identity. |
| SealedStore.StoreFile.Claim | src/risex_farmer/extended_testnet_lifecycle_operational.py:775-799 | One transaction: PREPARED to CLAIMED, dispatch count plus one, expected phase to next phase; a crash shows either side of it. |
| SealedStore.StoreFile.BindSigned | src/risex_farmer/extended_testnet_lifecycle_operational.py:801-835 | Payload, digest and settlement identity are bound once, to a claimed row, and the identity is unused elsewhere. |
| SealedStore.StoreFile.Prepare | src/risex_farmer/extended_testnet_lifecycle_operational.py:687-757 | One transaction inserts a row whose id, nonce, external id and settlement identity are all unused, under the expected phase. |
| SealedStore.StoreFile.MarkAccepted | src/risex_farmer/extended_testnet_lifecycle_operational.py:837-858 | The venue order id is recorded once, for a claimed or ambiguous row with that external id. |
| SealedStore.StoreFile.Mark | src/risex_farmer/extended_testnet_lifecycle_operational.py:860-877 | State and phase of one row change in one transaction. |
| SealedStore.StoreFile.Begin | src/risex_farmer/extended_testnet_lifecycle_operational.py:943-977 | The journal begins at most once in the life of a file. |
| SealedStore.StoreFile.Terminalize | src/risex_farmer/extended_testnet_lifecycle_operational.py:979-1008 | Only a started journal of this run is ended, once; any other is refused and left alone. |
| SealedVenue.CollectTrades | src/risex_farmer/extended_testnet_lifecycle_operational.py:1865-1899 | The loop collects exactly the trades of one order or refuses, as its specification says. |
| SealedVenue.MatchingTradesAreBound | src/risex_farmer/extended_testnet_lifecycle_operational.py:1865-1899 | Every collected trade is on the order's side, within its limit, of positive quantity, and no id appears twice. |
| Funding.StatusesClimb | src/risex_farmer/economics.py:226-239 | Every path of allowed status changes climbs, is itself one allowed change, and has at most three steps. |
| Funding.RecognizedFunding | src/risex_farmer/economics.py:276-283 | The early-exit loop returns the total of authoritative cash, or nothing when some row has none. |
| Funding.TotalUnknown | src/risex_farmer/economics.py:260-283 | An unknown total has an unknown row behind it. |
| Funding.UnknownRowHidesTotal | src/risex_farmer/economics.py:260-283 | One unknown row makes the total unknown. |
| Funding.UpdateClimbs | src/risex_farmer/lifecycle.py:503-515 | An accepted settlement update rewrites the row under its key and nothing else; keys and order stay and the row climbs. |
| Funding.UpdatedRow | src/risex_farmer/lifecycle.py:503-515 | Acceptance and the new row depend on the row under the key alone. |
| Funding.UpdatesCommute | src/risex_farmer/lifecycle.py:494-515 | Updates of different keys commute, and neither decides whether the other is accepted. |
| Funding.UpsertKeepsSorted | src/risex_farmer/lifecycle.py:461-470 | Writing a row keeps the table sorted and every other row. |
| PaperTheorems.RunHolds | src/risex_farmer/lifecycle.py:358-1529 | Every state of every run of the paper engine under a clock that does not go backwards satisfies its invariant. |
| PaperTheorems.RunAdvances | src/risex_farmer/lifecycle.py:684-1161 | Between any two states of a run the phase only climbs HOLDING, EXITING_NORMAL, EXITING_AGGRESSIVE, FLAT; closed versions and ended gaps are frozen; degraded data stays degraded; settlement rows only climb; a close stands. |
| PaperTheorems.MakerClosesAreBacked | src/risex_farmer/lifecycle.py:1190-1400 | Every maker close is backed by distinct trades that the run itself handed in, observed for that one version, each at least one tick through its price, that reach the order quantity while all but the last fall short; the maker leg leaves at that price. |
| PaperTheorems.OpenVersionIsLast | src/risex_farmer/lifecycle.py:684-793 | Versions are numbered 1..n, only the last may be open or filled, its fill is the sum of its counted trades, below the quantity while open, and none is open during a gap. |
| PaperTheorems.GapFreezes | src/risex_farmer/lifecycle.py:811-847 | While a gap is open no operation but recovery or restart changes anything but funding rows, and nothing closes. |
| PaperTheorems.FlatIsFinal | src/risex_farmer/lifecycle.py:1414-1477 | After the close only funding rows and the figures computed from them move. |
| PaperTheorems.HoldsForPositiveFunding | src/risex_farmer/lifecycle.py:1023-1064 | At known prices holding continues exactly when the maker exit has a price, recognised funding is known, and remaining funding is known and positive. |
| PaperTheorems.PressesAfterTenSeconds | src/risex_farmer/lifecycle.py:1066-1092 | No step skips the patient exit; the aggressive one starts only ten seconds into it. |
| PaperTheorems.ClosedNetBalances | src/risex_farmer/lifecycle.py:1479-1529 | In any run without a history mark after the close, the closed net is recognised funding plus pair profit less fees exactly when all funding is known, and an applied-rate net, where present, is the same amount. |
| PaperTheorems.StepSettles | src/risex_farmer/lifecycle.py:494-501 | Every operation but the history mark leaves the closed figures equal to what the rows say. |
| PaperTheorems.MarkAfterClose | src/risex_farmer/lifecycle.py:517-536 | Marking a row unresolved after the close leaves the closed figures right exactly when the mark does nothing, or total funding was unknown already and so was the exit funding the row falls into. |
| PaperTheorems.MarkAfterCloseDiverges | src/risex_farmer/lifecycle.py:517-536 | A concrete closed position whose closed net stays known while the marked row makes funding unknown. |
| PaperTheorems.CloseFigures | src/risex_farmer/lifecycle.py:924-1021 | A hard-basis close happens only on a broken basis, at the two proven taker prices, with the pair profit and fees they imply. |
| PaperTheorems.TradeCloseFigures | src/risex_farmer/lifecycle.py:1223-1400 | A trade closes only as the one that reaches the quantity of the observed open version, on healthy legs, at its limit and the proven taker price. |
| PaperSteps.StepKeeps | src/risex_farmer/lifecycle.py:902-1161 | Every operation, raising or not, keeps the engine invariant and only moves forward. |
| PaperSteps.EvaluateKeeps | src/risex_farmer/lifecycle.py:924-1099 | Evaluation keeps it on every branch. |
| PaperSteps.ProcessExitTradeKeeps | src/risex_farmer/lifecycle.py:1223-1400 | Trade processing keeps it on every branch, suspensions and closes included. |
| PaperSteps.RestartKeeps | src/risex_farmer/lifecycle.py:1129-1161 | A restart keeps it: a gap that is open stays as it is whatever instant was last known, a new one starts there, and a recovery may follow on healthy books. |
| PaperSteps.StartHolds | src/risex_farmer/lifecycle.py:358-411 | A fully open entry starts inside the invariant. |
| PaperDesk.EnsureKeeps | src/risex_farmer/lifecycle.py:732-793 | Repricing keeps one open version at most and drops the counted trades of a replaced one. |
| PaperDesk.FillKeeps | src/risex_farmer/lifecycle.py:1256-1356 | The version that fills holds exactly the trades that reached its quantity. |
| PaperDesk.CancelKeeps | src/risex_farmer/lifecycle.py:684-700 | Cancelling leaves no open version and no counted trades. |
| PaperInvariant.OpenGapKeeps | src/risex_farmer/lifecycle.py:811-825 | A new gap starts after every earlier one ended, and degrades the data. |
| PaperInvariant.CloseGapKeeps | src/risex_farmer/lifecycle.py:833-847 | Ending a gap keeps gaps disjoint and in order. |
| PaperInvariant.RegisterKeeps | src/risex_farmer/lifecycle.py:482-492 | Registering a cycle keeps the table sorted and every key, and puts both rows in. |
| PaperInvariant.SkipKeeps | src/risex_farmer/lifecycle.py:1402-1412 | Skipping future rows at the close keeps the table and only lets rows climb. |
| PaperMarket.MakerPriceNeverCrosses | src/risex_farmer/lifecycle.py:260-289 | A maker exit price is on the tick grid, inside the touch and never crosses it; the aggressive one is a tick from the other side; there is one exactly for an uncrossed aligned touch. |
| PaperMarket.SpreadIsTicks | src/risex_farmer/economics.py:45-59 | The spread the source accepts is a positive whole number of ticks. |
| PaperLifecycle.LifecycleEngine.constructor | src/risex_farmer/lifecycle.py:358-411 | The initial engine is the specified one. |
| PaperLifecycle.LifecycleEngine.EvaluateLocked | src/risex_farmer/lifecycle.py:924-1099 | Field by field the new state and answer are those of the specification. |
| PaperLifecycle.LifecycleEngine.ProcessTrade | src/risex_farmer/lifecycle.py:1223-1400 | Field by field the new state and outcome are those of the specification. |
| PaperLifecycle.LifecycleEngine.RecoverLocked | src/risex_farmer/lifecycle.py:1101-1127 | Recovery refines its specification, errors midway included. |
| PaperLifecycle.LifecycleEngine.RestartLocked | src/risex_farmer/lifecycle.py:1129-1161 | Restart refines its specification. |
| PaperLifecycle.LifecycleEngine.EnsureExitVersion | src/risex_farmer/lifecycle.py:732-793 | Repricing refines its specification. |
| PaperLifecycle.LifecycleEngine.CancelExitVersion | src/risex_farmer/lifecycle.py:684-700 | Cancelling refines its specification. |
| PaperLifecycle.LifecycleEngine.NewExitVersion | src/risex_farmer/lifecycle.py:702-730 | A new version refines its specification. |
| PaperLifecycle.LifecycleEngine.StartGapLocked | src/risex_farmer/lifecycle.py:811-825 | Starting a gap refines its specification. |
| PaperLifecycle.LifecycleEngine.EndGapLocked | src/risex_farmer/lifecycle.py:833-847 | Ending a gap refines its specification. |
| PaperLifecycle.LifecycleEngine.NoteUnavailable | src/risex_farmer/lifecycle.py:849-856 | Recording an unavailable unwind refines its specification. |
| PaperLifecycle.LifecycleEngine.Decide | src/risex_farmer/lifecycle.py:1023-1099 | The exit decision refines its specification. |
| PaperLifecycle.LifecycleEngine.MaybeRegisterNextCycle | src/risex_farmer/lifecycle.py:888-900 | Moving to the next cycle refines its specification, conflicts included. |
| PaperLifecycle.LifecycleEngine.CloseLocked | src/risex_farmer/lifecycle.py:1414-1477 | Closing refines its specification. |
| PaperLifecycle.LifecycleEngine.CloseOnBrokenBasis | src/risex_farmer/lifecycle.py:957-1018 | The hard-basis close refines its specification. |
| PaperLifecycle.LifecycleEngine.MarkFutureClosedSkips | src/risex_farmer/lifecycle.py:1402-1412 | The loop over rows skips exactly the pending ones settled at or after the close. |
| PaperLifecycle.LifecycleEngine.RecomputeClosed | src/risex_farmer/lifecycle.py:1479-1529 | All funding-dependent figures are recomputed from the rows and nothing else changes. |
| PaperLifecycle.LifecycleEngine.Reconcile | src/risex_farmer/lifecycle.py:494-501 | A settlement update refines its specification, recomputation included. |
| PaperLifecycle.LifecycleEngine.ReconcileAll | src/risex_farmer/lifecycle.py:1119-1120 | The loop over updates stops at the first refusal and keeps what came before it. |
| PaperLifecycle.LifecycleEngine.MarkHistoryUnresolved | src/risex_farmer/lifecycle.py:517-536 | The history mark rewrites at most one Extended row and recomputes nothing. |
| BookReplay.RunTracks | src/risex_farmer/market_data.py:49-189 | On every run against a venue whose deltas carry the last value of every price touched in their interval, a book that is not gapped equals the true book replayed to its sequence: Nado overlap and stale deltas, the Extended increment, the all-market stream and the Lighter chain alike. |
| BookReplay.Bridge | src/risex_farmer/market_data.py:180-189 | Absolute levels covering an interval carry a true book from any instant inside it to its end. |
| BookReplay.SkippedIntervalLosesLevels | src/risex_farmer/market_data.py:184-186 | A delta that starts after the held book can be faithful and still lose levels, so refusing it is necessary. |
| BookReplay.StepTracks | src/risex_farmer/market_data.py:60-189 | Each stream operation keeps the held book true. |
| BookReplay.RisexTakesItsChecksum | src/risex_farmer/market_data.py:191-217 | A RISEX update is taken exactly when the book is initialised, the update is not older than it and the two-sided, uncrossed book it leads to has the checksum it carries; that book is then held. |
| BookReplay.RisexBookIsVouched | src/risex_farmer/market_data.py:49-217 | On every run an open RISEX book is one the venue vouched for, unchanged since: a snapshot as it was sent, or a book that hashes to the checksum of the last update taken. |
| BookReplay.OnlySnapshotReopens | src/risex_farmer/market_data.py:40-58 | After a gap or disconnection only a snapshot reopens the book, and no delta moves the sequence back. |
| BookReplay.TakenOrGapped | src/risex_farmer/market_data.py:75-118 | A delta is taken into an uncrossed two-sided book or leaves a gap. |
| BookReplay.HealthyIsPublished | src/risex_farmer/market_data.py:258-293 | Complete health is exactly a published uncrossed book over a connection confirmed in the last 25 seconds. |
| BookStreams.BookStream.TakeSnapshot | src/risex_farmer/market_data.py:49-58 | A snapshot replaces both sides, the sequence and the flags, or is refused for another stream. |
| BookStreams.BookStream.ApplyAbsolute | src/risex_farmer/market_data.py:219-229 | The two loops replace, add and remove levels in order and touch nothing else. |
| BookStreams.BookStream.FinishUpdate | src/risex_farmer/market_data.py:231-238 | A crossed or one-sided book becomes a gap. |
| BookStreams.BookStream.TakeExtendedDelta | src/risex_farmer/market_data.py:60-73 | Refines the Extended rule. |
| BookStreams.BookStream.TakeNadoDelta | src/risex_farmer/market_data.py:167-189 | Refines the Nado rule, ignored and overlapping intervals included. |
| BookStreams.BookStream.TakeLighterDelta | src/risex_farmer/market_data.py:145-165 | Refines the Lighter chain rule. |
| BookStreams.BookStream.TakeRisexUpdate | src/risex_farmer/market_data.py:191-217 | Refines the RISEX rule; levels applied before a checksum failure stay behind the gap. |
| BookStreams.BookStream.TakeAggregateDelta | src/risex_farmer/market_data.py:120-143 | Refines the all-market Extended rule. |
| BookStreams.BookStream.TakeDelta | src/risex_farmer/market_data.py:75-118 | Dispatches to the venue's rule, and gaps when its numbers are missing. |
| BookStreams.BookStream.Book | src/risex_farmer/market_data.py:281-293 | Publishes exactly the held levels, best first, or nothing while gapped. |
| BookStreams.BookStream.Healthy | src/risex_farmer/market_data.py:258-279 | Decides completeness of health. |
| BookStreams.SortedLevels | src/risex_farmer/market_data.py:281-293 | Lists exactly the levels of a side in strict price order. |
| QuantitySteps.RationalLcm | src/risex_farmer/extended_mainnet_readiness.py:1278-1293 | The common-denominator loops return, for any non-empty list of positive rationals, the least positive common multiple in lowest terms, equal to the reduction over numerators and denominators. |
| QuantitySteps.AlgorithmsAgree | src/risex_farmer/economics.py:71-93 | Scaling to a common denominator and reducing lcm over gcd give one fraction. |
| QuantitySteps.ReducedIsLeast | src/risex_farmer/economics.py:71-93 | The reduction is a common multiple of the steps of which every common multiple is a multiple. |
| QuantitySteps.CommonStepIsLeast | src/risex_farmer/economics.py:75-93 | The common step of any non-empty list of raw steps and base multipliers is a multiple of every canonical step, and every fraction that is a multiple of them all is a multiple of it; the empty list is refused. |
| QuantitySteps.PairLcm | src/risex_farmer/economics.py:71-72 | A fraction is a multiple of the pair's result exactly when it is a multiple of both. |
| QuantitySteps.LcmIsLowest | src/risex_farmer/economics.py:71-72 | The pair's result is already in lowest terms. |
| QuantitySteps.CommonQuantityIsLeast | src/risex_farmer/extended_mainnet_readiness.py:1523-1534 | The common quantity is a multiple of both steps, at least both minima, and no smaller fraction is. |
| QuantitySteps.CeilCovers | src/risex_farmer/extended_mainnet_readiness.py:1302-1304 | The rounded-up quotient is the least count that reaches the dividend. |
| DepthVwap.ExactQuantityVwap | src/risex_farmer/economics.py:141-166 | The loop over levels returns what the recursive walk does, errors and early exit included. |
| DepthVwap.VwapIffDepth | src/risex_farmer/economics.py:141-166 | On positive levels a price is returned exactly when the depth suffices, and filled quantity and notional are those of taking from the front. |
| DepthVwap.BuyIsOptimal | src/risex_farmer/economics.py:141-166 | On asks cheapest first no allocation of the quantity within the level sizes costs less. |
| DepthVwap.SellIsOptimal | src/risex_farmer/economics.py:141-166 | On bids dearest first no allocation of the quantity brings more. |
| DepthVwap.VwapWorsens | src/risex_farmer/economics.py:141-166 | A larger quantity never averages a better price, on either side. |
| ShapeTheorems.DescribedIsAccepted | src/risex_farmer/extended_account_shape_witness.py:99-254 | Every descriptor written is accepted by the validator, is the redaction of its body, and the 4096-byte check never fires. |
| ShapeTheorems.AcceptedIsShort | src/risex_farmer/extended_account_shape_witness.py:221-254 | The validator accepts exactly the redacted grammar within 16 keys, and what it accepts is short enough. |
| ShapeTheorems.DescribeSaysOnlyShape | src/risex_farmer/extended_account_shape_witness.py:99-142 | Accepted bodies with the same approved names, classes and unknown counts have one descriptor. |
| ShapeTheorems.WalkRedacts | src/risex_farmer/extended_account_shape_witness.py:104-136 | What the walk writes does not depend on depth, on keys counted before, or on any value. |
| ShapeTheorems.WalkCounts | src/risex_farmer/extended_account_shape_witness.py:104-136 | The walk stays in the grammar and counts at least every key it writes, 16 at most. |
| ShapeTheorems.ValidateIsGrammar | src/risex_farmer/extended_account_shape_witness.py:221-254 | Validation from any count accepts exactly the grammar that fits and returns the new count. |
| ShapeTheorems.LengthBound | src/risex_farmer/extended_account_shape_witness.py:137-141 | Each key costs at most 81 encoded bytes. |
| ShapeDescriptor.ShapeWalker.WalkValue | src/risex_farmer/extended_account_shape_witness.py:99-142 | The recursive walk with a shared key count refines its specification. |
| WitnessRun.ProcessStarts | src/risex_farmer/extended_account_shape_witness.py:487-562 | Over any number of starts and crashes each effect happens at most once, all starts that answer answer alike, a finished run answers its record, and a run left running only ever answers UNKNOWN. |
| WitnessRun.FixtureRun | src/risex_farmer/extended_account_shape_witness.py:487-562 | A start that finds a row does nothing but answer from it; a run that answers recorded that answer. |
| WitnessRun.Capture | src/risex_farmer/extended_account_shape_witness.py:502-531 | Each effect is attempted in writing before it happens; success means both effects complete and an accepted descriptor. |
| WitnessLedger.WitnessStore.Claim | src/risex_farmer/extended_account_shape_witness.py:326-357 | A row once written is answered, never claimed again. |
| WitnessLedger.WitnessStore.Increment | src/risex_farmer/extended_account_shape_witness.py:359-384 | One attempt, then one completion, per effect, and only while running. |
| WitnessLedger.WitnessStore.Finish | src/risex_farmer/extended_account_shape_witness.py:395-426 | The terminal record is written after its own attempt, from the stored counters. |
| WitnessLedger.FinishAnswers | src/risex_farmer/extended_account_shape_witness.py:176-218 | Every terminal record written is accepted by the decoder and returned unchanged by a later claim. |
| PrivateRead.ProcessStarts | src/risex_farmer/extended_private_read_operational.py:491-560 | Over any number of starts in any modes and crashes each of the thirteen effects happens at most once, all starts that answer answer alike, a finished row answers its record, a row left running only ever that it was interrupted, and a READY answer has the exact counters and call counts of its mode over two proven, ordered rounds and, in stream mode, one proven barrier. |
| PrivateRead.FixtureRun | src/risex_farmer/extended_private_read_operational.py:491-560 | A start that finds a row does nothing but answer from it; a run that answers recorded that answer, and is READY only over a proven read. |
| PrivateRead.PrivateReader.Execute | src/risex_farmer/extended_private_read_preflight.py:696-826 | Every successful stream read leaves every effect attempted and completed once, six requests, seven clock readings, no frame outside one unbroken sequence, both rounds proven and ordered, and the barrier of the same silent connection not before the second round. |
| PrivateRead.PrivateReader.ExecuteRestFallback | src/risex_farmer/extended_private_read_preflight.py:552-580 | Every successful fallback leaves exactly the loader and the six requests attempted and completed once, everything else untouched, six clock readings, no frame, and two proven, ordered rounds with equal snapshots. |
| PrivateRead.PrivateReader.RestRound | src/risex_farmer/extended_private_read_preflight.py:411-446 | A round that returns is the account, the orders and the positions in order, each sent once, fresh, accepted and completed; it adds exactly these three effects to those done. |
| PrivateRead.PrivateReader.ReadOne | src/risex_farmer/extended_private_read_preflight.py:411-446 | One request is counted, written down, sent at most once, checked in transport, clock and body, and only then completed. |
| PrivateRead.PrivateReader.FreshCurrent | src/risex_farmer/extended_private_read_preflight.py:288-302 | One clock reading, never before the last, at or after the observation and at most five seconds after it. |
| PrivateRead.PrivateReader.ValidateBarrier | src/risex_farmer/extended_private_read_preflight.py:767-798 | A validated barrier is connected on the same silent connection, has its frames, and is not before any observation of the second round. |
| PrivateRead.PrivateReader.AcceptFrame | src/risex_farmer/extended_private_read_preflight.py:583-659 | An accepted frame continues the one unbroken sequence and is counted. |
| PrivateRead.ModesAcceptAlike | src/risex_farmer/extended_private_read_preflight.py:377-492 | The page checks of the stream mode and of the fallback accept the same bodies, a list only when it is empty, and see the same snapshot. |
| PrivateRead.SuccessCounts | src/risex_farmer/extended_private_read_operational.py:139-204 | What a successful read of either mode leaves, with its terminal record counted, is the counter pattern its decoder demands. |
| PrivateReadLedger.FinishedAnswers | src/risex_farmer/extended_private_read_operational.py:139-204 | Every terminal record that is written decodes and is returned unchanged by any later start of its mode. |
| PrivateReadLedger.RunningAnswersUnknown | src/risex_farmer/extended_private_read_operational.py:305-344 | A row left running answers any start of its mode that it was interrupted, and a start of the other mode that the identity differs. |
| PrivateReadLedger.IncrementOk | src/risex_farmer/extended_private_read_operational.py:346-371 | An attempt or completion the store takes leaves counters that decode and never under-count; an attempt is taken only for an effect that never happened. |
| PrivateReadLedger.OperationalStore.Claim | src/risex_farmer/extended_private_read_operational.py:305-344 | A row once written is answered, never claimed again. |
| PrivateReadLedger.OperationalStore.Increment | src/risex_farmer/extended_private_read_operational.py:346-371 | One attempt, then one completion, per effect, in one transaction, and only while running. |
| PrivateReadLedger.OperationalStore.Finish | src/risex_farmer/extended_private_read_operational.py:384-424 | The terminal attempt is written first; the record then carries the counters the row has. |
| MainnetRead.ProcessStarts | src/risex_farmer/extended_mainnet_private_read.py:2158-2467 | Whatever the venue answers and wherever starts die, one journal row sees at most 780 GETs and two streams, and its counters show every one of them. |
| MainnetRead.SendsAreBounded | src/risex_farmer/extended_mainnet_private_read.py:2158-2335 | Six resources and six listings of 64 pages, twice each, bound what counters that never under-count can allow. |
| MainnetRead.RunGate | src/risex_farmer/extended_mainnet_private_read.py:2158-2467 | A start that finds a row sends nothing; a finished row is returned unchanged. |
| MainnetRead.GetDecoded | src/risex_farmer/extended_mainnet_private_read.py:1014-1067 | One counted request and one counted retry after a transport interruption; success means exactly one completion. |
| MainnetRead.ReadPages | src/risex_farmer/extended_mainnet_private_read.py:1070-1141 | A listing that is returned is exactly the rows of its pages in order, each page asked for with the cursor of the one before; every page but the last is full, the last is not, no cursor repeats, times are in order. |
| MainnetRead.ReadOpenOrders | src/risex_farmer/extended_mainnet_private_read.py:2470-2525 | Exactly the rows of at most 64 pages in order, chained by cursors that never repeat, ending at a page without a next one. |
| MainnetRead.RunStore.Attempt | src/risex_farmer/extended_mainnet_private_read.py:773-795 | A first attempt or the one retry is counted in one transaction, or refused. |
| MainnetRead.RunStore.Complete | src/risex_farmer/extended_mainnet_private_read.py:797-809 | A completion is counted once, for something attempted. |
| MainnetRead.RunStore.Claim | src/risex_farmer/extended_mainnet_private_read.py:721-771 | An interrupted run is finished as blocked; a finished one is returned. |
| MainnetRead.RunStore.Terminalize | src/risex_farmer/extended_mainnet_private_read.py:817-845 | The result is recorded once with the counters it reports. |
| MainnetRead.NoAttemptAfterCompletion | src/risex_farmer/extended_mainnet_private_read.py:544-564 | After a completion, or two attempts, no attempt is allowed. |
| MainnetRead.AttemptOk | src/risex_farmer/extended_mainnet_private_read.py:544-564 | Counters written by an attempt decode. |

## Left out
- Wire formats: row schemas, required keys, decimals that do not parse, envelope decoding and JSON text are not modelled; evidence arrives decoded.
- SQLite, file permissions, fsync ordering, TLS, WebSocket and HTTP transports, credential loading, key zeroising and Stark signing are foreign calls: a transaction is atomic and a call is an arbitrary answer.
- Hashes and checksums: payload digests are ideal, observation fingerprints are opaque values, the RISEX checksum is an arbitrary function of both sides.
- Rounding of the 28-digit decimal context: every amount is an exact real or fraction, so a property that holds only up to rounding is stated exactly.
- Extended private read: the older `PreflightStore` entry points, the checks of one stream frame's content (accepted with its sequence number, or refused), time limits of a call and hooks around effects are not modelled; a lost connection, a stopped stream, a cancellation and any other exception are four arbitrary outcomes of a call.
- Private stream frames of the mainnet read, the decoding of its rows and its final reconciliation are one arbitrary outcome of the stream effect; the counter-delta check of one process is not modelled.
- Other venues' lifecycles, onboarding, archives, orchestration, scanner, paper entry broker, notifications, storage, and the command line.
- Position samples of the paper engine, restoring it from a snapshot (which forgets counted trades), and candidate publication.
- Backwards event times of the paper engine and negative level quantities of a book delta raise midway through an update; runs assume neither, except that an instant a restart does not use may lie anywhere.
- Asynchronous locking: each engine operation is one step, as its lock makes it.
- LifecycleTheorems.RunNeverReuses: a cancellation that is no longer PREPARED need not have count 1, because a superseded cancel is relabelled without having been sent.
- ExtendedLifecycle.ExtendedLifecycle.CheckFinalIdentities: final identities are visited in table order where the program walks a set; the first failing row may differ, the verdict does not.
- PaperTheorems.ClosedNetBalances: excludes a history mark after the close, for which the statement is false; the exact condition is its own row.
- BookReplay.RunTracks: RISEX has no sequence chain; what an open RISEX book rests on is `BookReplay.RisexBookIsVouched`, and a checksum of 32 bits does not identify a book.
- SealedRunner.ProcessStarts: stage names and failure classes of the run journal are not modelled.
- MainnetRead.GetDecoded: decoding and status checks of a reply are one arbitrary refusal, and the stream uses the same retry loop as a request.
- WitnessRun.FixtureRun: the fixture hooks around effects are no-ops, and catalogue checks of the store file are not modelled.
- DepthVwap.VwapIffDepth: assumes positive levels; a level that is not positive is refused only when the walk reaches it, as the method's contract shows.
