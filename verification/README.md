# Aegis: a verified model of the capital path, the ledgers and the evaluation machinery

This project models, in Dafny, the deterministic core of the repository: the hard risk gate, the
projection and hierarchical-risk-parity portfolio models, order construction and the simulated
broker, the cycle that ties them together, the research desk, the two append-only ledgers, the
leakage-aware fold builders, the DCF and its inversion, and point-in-time revision selection.

`dafny verify dfyconfig.toml` checks everything. Every `float` and `Decimal` is an exact real;
`quantize` is an explicit rounding function. Code that changes state step by step is a method or
a class proved against a specification function, and the laws are lemmas about that function.

| file | source | what it holds |
|---|---|---|
| `RiskGate.dfy`, `ExposureLaws.dfy`, `RiskEvaluation.dfy` | `aegis/risk/checks.py`, `aegis/contracts/risk.py` | the clamp arithmetic and its laws; what its measures mean; the loops, the logs, the re-check, the decision |
| `Vectors.dfy`, `Projection.dfy`, `ExactShift.dfy` | `aegis/quant_research/portfolio_models.py` | clipping and distances; bisection, repair, score weighting; the exact projection |
| `Clustering.dfy`, `Linkage.dfy`, `RiskParity.dfy`, `ClusterRisk.dfy` | `aegis/quant_research/portfolio_models.py` | agglomerative leaf order; average linkage; the work-queue split; group variance and uncorrelated assets |
| `Rounding.dfy`, `Broker.dfy`, `BrokerLaws.dfy`, `BatchOutcome.dfy` | `aegis/brokers/simulated.py` | rounding, the broker class, conservation, cost basis and reachability, when a batch commits |
| `Orders.dfy`, `Cycle.dfy`, `Receipts.dfy` | `aegis/fund/execution.py`, `aegis/fund/run_cycle.py`, `aegis/fund/ledger.py`, `aegis/research_lab/receipt_series.py` | orders, the cycle with its record and rollback, receipt returns |
| `Desk.dfy`, `DeskLaws.dfy`, `DeskOutcome.dfy` | `aegis/harness/graph.py`, `aegis/harness/state.py` | the desk as a step machine, confluence, fail-closed safety, exact outcome |
| `ExperimentLedger.dfy`, `ThesisLedger.dfy` | `aegis/research_lab/experiments.py`, `aegis/fundamentals/thesis.py` | hash-chained log, versioned thesis table |
| `Sampling.dfy`, `WalkForward.dfy`, `CombinatorialFolds.dfy` | `aegis/research_lab/validation.py` | interval-purged walk-forward and combinatorial folds |
| `Valuation.dfy` | `aegis/fundamentals/valuation.py` | enterprise value and reverse DCF |
| `Revisions.dfy` | `aegis/quant_research/universe.py`, `aegis/quant_research/factors.py` | latest visible revision per data point |
| `Names.dfy`, `Sums.dfy`, `Reals.dfy`, `Wrappers.dfy` | | names in Python's order, finite sums, real arithmetic, results |

## Where the code does not do what is said of it

- **A failed cycle can leave fills behind.** `aegis/fund/run_cycle.py` restores the broker when
  reconciliation fails or the ledger refuses. The build fingerprint (171) and the record's validator
  (226-248, `aegis/fund/ledger.py:60-85`) run after the batch has committed and outside any rollback.
  After an error the broker is as it was if and only if the record can be built from the inputs or the
  cycle moved nothing (`Cycle.RunCycle`). A legacy fund whose dossier carries a quant bundle trades and
  then raises, with the fills kept and no record (`Cycle.LegacyBundleStrandsFills`).
- **Dust and the net re-check.** The gate's second check is meant to be redundant. It is, except
  that weights of at most 1e-15 are dropped before it: with shorting on, enough dropped shorts move
  the net exposure past the 1e-12 tolerance and the gate rejects its own output. The bound is exact:
  evaluations of up to `n` acceptable tickers are safe if and only if `n <= 1001`
  (`RiskEvaluation.NetHoldsUpToIff`). A long-only proposal against a long-only book is safe at any size.
- **Receipt returns are not cost-free.** The comment at `aegis/research_lab/receipt_series.py:120-123`
  says entry costs are restored so that later cost tests do not count them twice. Adding them to the
  base alone does not remove them: at unchanged marks the "gross" return times the base is exactly
  minus the entry cost (`Receipts.FlatMarksReturn`), and the return equals the held book's own only
  when nothing was charged or the label is worthless.
- **Fills off the price grid.** A fill is rounded to 1e-6, which can carry it past its mark
  (`BrokerLaws.OffGridFillImproves`). It ends on the costly side if and only if the slipped price is
  within half a grid step of the first grid price there (`BrokerLaws.FillSide`), as it always is for a
  mark on the grid (`BrokerLaws.GridIsAdverse`); the laws that use the recorded slippage require
  exactly that.
- **Thesis reads as of a time.** `aegis/fundamentals/thesis.py:92-93` compares ISO texts. That is time
  order for all instants exactly when both UTC offsets are equal (`ThesisLedger.TextOrderIsTimeOrderIff`);
  with mixed offsets a read of a reachable ledger can hide a known version or return a future one
  (`ThesisLedger.OneVersionReadRightIff`, `ThesisLedger.MixedOffsetsMislead`).

## Model

| member | source | states |
|---|---|---|
| `RiskGate.ClampedIsSafe` | aegis/risk/checks.py:56-125 | after one pass of the five clamps every limit holds with no tolerance, so no clamp undoes an earlier one; each weight keeps its sign and never grows |
| `RiskGate.ClampedFixesSafe` | aegis/risk/checks.py:56-125 | a book already inside every limit passes through unchanged |
| `RiskGate.ClampedIdempotent` | aegis/risk/checks.py:234 | a second pass over a clamped book is the identity |
| `RiskGate.SectorScaledMeetsCap` | aegis/risk/checks.py:87-103 | scaling an over-exposed sector's longs brings every sector to its cap, sectors not disturbing each other |
| `RiskGate.ExposureScaledMeetsCaps` | aegis/risk/checks.py:105-123 | the common scale meets the gross, cash and net caps at once, and is 1 when they already hold |
| `RiskGate.RoutedAddsNoRisk` | aegis/risk/checks.py:187-236 | for every ticker the final absolute weight is at most the safe target's, hence the proposal's |
| `RiskGate.LongOnlySecondPassIdentity` | aegis/risk/checks.py:197-234 | long-only books on both sides: each limited weight lies between current and safe target (or is the cut target) and the second pass changes nothing |
| `RiskGate.RoutedLongOnly` | aegis/risk/checks.py:187-234 | a long-only proposal against a long-only current book stays long-only throughout, as does any with shorting off |
| `RiskGate.TurnoverWithinLimit` | aegis/risk/checks.py:197-240 | long-only with nothing to cut: the final turnover is within the limit, up to half the dust dropped |
| `RiskGate.LimitedTurnoverExact` | aegis/risk/checks.py:198-205 | when nothing needs de-risking the limited book's turnover is exactly the allowed one |
| `RiskGate.RoutedIsSafe` | aegis/risk/checks.py:187-234 | the book before dust is dropped meets every limit with no tolerance |
| `RiskGate.DustKeepsLimits` | aegis/risk/checks.py:236 | dropping dust breaks no short, position, sector, gross or cash limit |
| `RiskGate.DustKeepsNet` | aegis/risk/checks.py:163-164 | dropping dust stays within the net tolerance for long-only books and for up to 1001 tickers |
| `RiskGate.DustBoundIsSharp` | aegis/risk/checks.py:236-237 | a safe book of one long and 1001 to 10^8 dust shorts, every ticker of the form a proposal accepts, fails the net re-check |
| `ExposureLaws.TurnoverSymmetric` | aegis/risk/checks.py:32-34 | turnover is the same in either direction, so exits count as entries do |
| `ExposureLaws.TurnoverFromNothing` | aegis/risk/checks.py:32-34 | against an empty book on either side it is half the gross exposure |
| `ExposureLaws.TurnoverZeroIff` | aegis/risk/checks.py:32-34 | it is never negative, and zero if and only if the two books give every name the same weight |
| `ExposureLaws.TurnoverTriangle` | aegis/risk/checks.py:32-34 | the triangle inequality |
| `ExposureLaws.TurnoverIsTrade` | aegis/risk/checks.py:32-34 | twice the turnover is purchases plus sales, whose difference is the change of net; for books of equal net it is the purchases |
| `ExposureLaws.SwapTurnover` | aegis/risk/checks.py:32-34 | exchanging one holding for another name moves half of both weights |
| `ExposureLaws.EmptyBook` | aegis/risk/checks.py:32-108 | an empty book has no gross, net, sector exposure or turnover |
| `ExposureLaws.HoldingAdds` | aegis/risk/checks.py:87-108 | what one more holding adds to gross, net, sector exposure and turnover |
| `ExposureLaws.FirstClampsAreNearest` | aegis/risk/checks.py:66-81 | the shorting and position clamps move each weight to the nearest one their limits allow |
| `ExposureLaws.SectorEndsAtCap` | aegis/risk/checks.py:90-103 | every sector ends at the lesser of its exposure and the cap, longs keeping their proportions and all else untouched |
| `ExposureLaws.ExposureScaleIsLargest` | aegis/risk/checks.py:105-123 | a factor between 0 and 1 meets the gross, cash and net caps if and only if it is at most the one used |
| `RiskEvaluation.ChangesMembers` | aegis/risk/checks.py:66-103 | the log of a step has an entry, with the measure before and after, for exactly the subjects the step changed |
| `RiskEvaluation.ChangesAscending` | aegis/risk/checks.py:66-103 | entries come in ascending order, none twice |
| `RiskEvaluation.ClampShorts` | aegis/risk/checks.py:66-72 | the shorting loop ends at the specified book and logs exactly the weights it changed, before and after |
| `RiskEvaluation.ClampPositions` | aegis/risk/checks.py:74-81 | the same for the position loop |
| `RiskEvaluation.ClampSectors` | aegis/risk/checks.py:87-103 | sector by sector in place equals scaling every sector of the incoming book, and logs exactly the sectors whose exposure changed |
| `RiskEvaluation.ClampExposure` | aegis/risk/checks.py:105-123 | the exposure scaling in place; it logs gross before and after exactly when it changed the book |
| `RiskEvaluation.ApplySafetyClamps` | aegis/risk/checks.py:56-125 | one pass computes the clamped book; the log is the four steps' changes in order, empty exactly when the book is unchanged; a missing sector is recorded |
| `RiskEvaluation.SectorLogComplete` | aegis/risk/checks.py:90-103 | the sector clamp changes the book if and only if some sector is over its cap |
| `RiskEvaluation.RecordSafetyViolations` | aegis/risk/checks.py:128-168 | exactly the findings that hold of the book are on record afterwards |
| `RiskEvaluation.OnlyNetCanFire` | aegis/risk/checks.py:128-168 | of the pipeline's own output no finding but the net cap can ever be made |
| `RiskEvaluation.CheckStrategies` | aegis/risk/checks.py:190-195 | every over-cap strategy is recorded and no other |
| `RiskEvaluation.LimitTurnover` | aegis/risk/checks.py:198-230 | interpolation with the de-risk override loop equals the specified limited book, and logs exactly the weights the override moved |
| `RiskEvaluation.RouteProposal` | aegis/risk/checks.py:182-234 | the book before dust; exactly the allocation and missing-sector findings; the whole clamp log, empty exactly when nothing was touched |
| `RiskEvaluation.NoRouteFinding` | aegis/risk/checks.py:83-86 | before the re-check there is no finding if and only if every clamped ticker has a sector and no allocation exceeds its cap |
| `RiskEvaluation.EvaluateRisk` | aegis/risk/checks.py:171-262 | the decision: final weights, approval if and only if the verdict's three conditions hold, exactly which violations, turnover warning, and the whole clamp log |
| `RiskEvaluation.NetReCheckSilent` | aegis/risk/checks.py:163-164 | the net re-check cannot fire with shorting off, for a long-only proposal against a long-only book of any size, or for at most 1001 tickers |
| `RiskEvaluation.ApprovalCondition` | aegis/risk/checks.py:171-262 | under the same conditions on the inputs, approval if and only if every clamped ticker has a sector and no allocation exceeds its cap |
| `RiskEvaluation.NoWarningWithoutCut` | aegis/risk/checks.py:239-243 | a long-only evaluation of at most 2000 tickers with nothing to cut raises no turnover warning |
| `RiskEvaluation.NetHoldsUpToIff` | aegis/risk/checks.py:236-237 | over books of acceptable tickers, the gate accepts its own net exposure for all evaluations of up to n tickers if and only if n is at most 1001 |
| `Vectors.ClipVariational` | aegis/quant_research/portfolio_models.py:71 | the clipped shift satisfies the variational inequality of a projection against every point of the box |
| `Projection.Bisect` | aegis/quant_research/portfolio_models.py:62-70 | a hundred halvings keep the target bracketed and leave the width divided by 2^100 |
| `Projection.Repair` | aegis/quant_research/portfolio_models.py:72-80 | the in-place residual loop stays in bounds, ends within 1e-12 of target, moves no further than the residual, and does nothing when there is none |
| `Projection.BoundedSimplex` | aegis/quant_research/portfolio_models.py:55-83 | total on feasible bounds: never "did not converge"; in bounds, sum within 1e-12, within n·width/2^101 + 1e-12 of a clipped vector, and nearest to the scores of all admissible portfolios up to that error |
| `Projection.ClipIsProjection` | aegis/quant_research/portfolio_models.py:71 | the clipped vector is the unique nearest point of the box with its own sum |
| `Projection.NearlyOptimal` | aegis/quant_research/portfolio_models.py:55-83 | the squared distance of the returned portfolio exceeds that of no admissible one by more than four times the reach for every unit of the error bound |
| `Projection.NearExactProjection` | aegis/quant_research/portfolio_models.py:55-83 | the result is within twice the error bound of the exact projection |
| `ExactShift.ExactShiftIff` | aegis/quant_research/portfolio_models.py:62-71 | some shift meets the target exactly if and only if the box allows the target |
| `ExactShift.ResultNearProjection` | aegis/quant_research/portfolio_models.py:55-83 | the exact projection exists whenever the box allows the target, it is the unique nearest admissible portfolio, and the result lies within twice the error bound of it |
| `Projection.AdmissibleScoresAreKept` | aegis/quant_research/portfolio_models.py:55-83 | scores that already form an admissible portfolio come back within twice the error bound |
| `Projection.NormalizedScores` | aegis/quant_research/portfolio_models.py:90-94 | the normalising division is safe and the normalised scores are non-negative and sum to the gross target |
| `Projection.NormalizedShares` | aegis/quant_research/portfolio_models.py:90-94 | normalised scores are in proportion to the positive parts of the scores, or all equal when there is no positive mass |
| `Projection.ScoreWeights` | aegis/quant_research/portfolio_models.py:86-97 | fails exactly on infeasible bounds; otherwise in bounds, within 1e-12 of gross, within the error bound of the clipped normalised scores, and nearest to them up to the error |
| `Clustering.ClosestPair` | aegis/quant_research/portfolio_models.py:298-304 | the pair merged is the least candidate: no closer pair, ties to names |
| `Linkage.SingleSeparation` | aegis/quant_research/portfolio_models.py:302 | single assets stand at their own distance |
| `Linkage.SeparationSymmetric` | aegis/quant_research/portfolio_models.py:302 | separation is symmetric for symmetric distances |
| `Linkage.MergedMeaning` | aegis/quant_research/portfolio_models.py:305-309 | a merged cluster stands at its parts' mean separation by size from every other, and lists the lesser part first whichever was found first |
| `Linkage.SortAssetsSorts` | aegis/quant_research/portfolio_models.py:303 | the names that break ties are the pair's tickers in order |
| `Clustering.MergeKeepsCount` | aegis/quant_research/portfolio_models.py:305-311 | merging and re-sorting neither lose nor duplicate an asset |
| `Clustering.SortOrdered` | aegis/quant_research/portfolio_models.py:311 | the cluster list is kept in ticker order |
| `Clustering.ClusterOrder` | aegis/quant_research/portfolio_models.py:286-312 | for any distances, a permutation of the assets, ending a run of closest merges from single assets |
| `Clustering.ClustersStayTogether` | aegis/quant_research/portfolio_models.py:296-312 | every cluster ever formed is a contiguous block of the leaf order |
| `RiskParity.ClusterVariance` | aegis/quant_research/portfolio_models.py:315-320 | a group's variance never falls below the floor; the rows after it say what it is |
| `ClusterRisk.InverseSharesExist` | aegis/quant_research/portfolio_models.py:317-319 | every group has exactly one portfolio with shares that sum to 1 and are inverse to the floored variances |
| `ClusterRisk.VarianceOfInverseShares` | aegis/quant_research/portfolio_models.py:315-320 | the group's variance is that portfolio's, the double sum of shares and covariances, floored |
| `ClusterRisk.SingleVariance` | aegis/quant_research/portfolio_models.py:315-320 | a group of one has the asset's own floored variance |
| `ClusterRisk.UncorrelatedVariance` | aegis/quant_research/portfolio_models.py:315-320 | on uncorrelated assets it is the inverse of the summed inverse variances, floored |
| `RiskParity.LeftShare` | aegis/quant_research/portfolio_models.py:343-345 | the allocation of a split lies strictly between 0 and 1 |
| `RiskParity.SplitConserves` | aegis/quant_research/portfolio_models.py:337-348 | the split of a budget over a group sums to the budget |
| `RiskParity.SplitPositive` | aegis/quant_research/portfolio_models.py:337-348 | every asset ends with a strictly positive weight |
| `RiskParity.SplitParity` | aegis/quant_research/portfolio_models.py:343-347 | weight times variance is equal on the two sides of every split |
| `ClusterRisk.UncorrelatedSplit` | aegis/quant_research/portfolio_models.py:335-348 | on uncorrelated assets the bisection gives every asset the budget in proportion to its inverse variance, whatever the leaf order |
| `ClusterRisk.UncorrelatedParity` | aegis/quant_research/portfolio_models.py:335-348 | so weight times variance is the same for all assets, not only across each split |
| `RiskParity.SplitGroup` | aegis/quant_research/portfolio_models.py:341-347 | one turn scales both halves in place and nothing else |
| `RiskParity.BisectWeights` | aegis/quant_research/portfolio_models.py:335-348 | the work queue terminates with exactly the recursive split |
| `RiskParity.WeightsSumToOne` | aegis/quant_research/portfolio_models.py:335-348 | for any leaf order the weights are positive and sum to exactly 1 |
| `RiskParity.Propose` | aegis/quant_research/portfolio_models.py:327-350 | the model: which error each failing check returns, in order, scoring itself never failing; and weights near the clipped split of the leaf order of a clustering run |
| `ClusterRisk.LevelCount` | aegis/quant_research/portfolio_models.py:296-312 | every level of a clustering run holds each asset exactly once |
| `ClusterRisk.UncorrelatedModel` | aegis/quant_research/portfolio_models.py:327-350 | on uncorrelated assets the weights the model scores are the inverse-variance portfolio of all of them |
| `Rounding.CentsNear` | aegis/brokers/simulated.py:104-107 | half-up to the cent moves at most half a cent and fixes cents |
| `Rounding.CentsEvenNear` | aegis/brokers/simulated.py:64 | the default half-even to the cent moves at most half a cent |
| `Rounding.NearestUpIff` | aegis/brokers/simulated.py:100-107 | half-up rounding: the nearest integer, ties away from zero |
| `Rounding.NearestEvenIff` | aegis/brokers/simulated.py:64 | the default rounding: the nearest integer, ties to even |
| `Rounding.MicrosSide` | aegis/brokers/simulated.py:100-102 | on which side of a mark a price is rounded to 1e-6: the exact condition for either side |
| `Broker.SimBroker.constructor` | aegis/brokers/simulated.py:32-37 | opens valid, with the cash in cents and nothing held |
| `Broker.SimBroker.Restore` | aegis/brokers/simulated.py:50-53 | the whole state is the one given |
| `Broker.SimBroker.MarkToMarket` | aegis/brokers/simulated.py:58-64 | cash plus holdings at the marks in cents, or the missing mark |
| `Broker.SimBroker.ExecuteBatch` | aegis/brokers/simulated.py:75-153 | the batch's new state and fills, or its first error with the old state; validity kept |
| `BatchOutcome.CommitsIff` | aegis/brokers/simulated.py:90-153 | a batch commits if and only if ids are distinct, orders are whole, fills positively priced, no sale exceeds what is held at its turn and cash covers the outlay; then its fills, cash and every position |
| `BrokerLaws.FillTerms` | aegis/brokers/simulated.py:98-104 | slippage is its rate on the reference, against the order's side, to the nearest 1e-6; the fee is its rate on the notional within half a cent |
| `BrokerLaws.WeightsAddUp` | aegis/brokers/simulated.py:66-73 | each weight times equity is the position's worth; weights times equity add up to equity less cash within half a cent |
| `BrokerLaws.SettleConserves` | aegis/brokers/simulated.py:109-123 | at any marks a fill lowers equity by exactly its fee and price given away |
| `BrokerLaws.RunConserves` | aegis/brokers/simulated.py:90-146 | so does a whole run of orders, by the sum |
| `BrokerLaws.BatchConserves` | aegis/brokers/simulated.py:75-153 | a committed batch loses its costs, up to half a cent of rounding |
| `BrokerLaws.FillSide` | aegis/brokers/simulated.py:98-102 | a fill is at or beyond its reference, above for buys and below for sells, if and only if the slipped price is within half a grid step of the first grid price there |
| `BrokerLaws.GridIsAdverse` | aegis/brokers/simulated.py:98-102 | every reference on the grid meets that condition on either side |
| `BrokerLaws.FillCharges` | aegis/brokers/simulated.py:100-107 | a fill costs its fee plus the absolute amount given away if and only if that condition holds, and is then within half a cent of its recorded fee and slippage |
| `BrokerLaws.RestoredNavNearEquity` | aegis/research_lab/receipt_series.py:138-144 | NAV after n such fills with fees and slippage restored is within 0.005·(n+3) of equity before |
| `BrokerLaws.OffGridFillImproves` | aegis/brokers/simulated.py:100-102 | a price off the grid whose fill beats the mark |
| `BrokerLaws.AverageBetween` | aegis/brokers/simulated.py:110-114 | a new average cost lies between the old one and the fill price |
| `BrokerLaws.SettleBasis` | aegis/brokers/simulated.py:109-123 | a buy raises average cost times shares by exactly price times quantity, a partial sale leaves the average alone, a full one removes it, and no other ticker is touched |
| `BrokerLaws.AverageIsWhatWasPaid` | aegis/brokers/simulated.py:110-123 | while a position has only been bought since it opened, average cost times shares is the sum of price times quantity paid |
| `BrokerLaws.RunExplained` | aegis/brokers/simulated.py:90-146 | positions are what the fills add up to, average cost times shares is the log's cost basis, and each average cost lies within the prices paid since the position opened |
| `BrokerLaws.EverySession` | aegis/brokers/simulated.py:75-153 | over every run of batches cash is non-negative and in cents, quantities positive, cost keys equal share keys, average cost times shares the cost basis of the fills, costs within the buy prices since opening |
| `BrokerLaws.OpeningReconciled` | aegis/brokers/simulated.py:32-37 | an opening account satisfies that invariant |
| `BrokerLaws.SessionProfitAndLoss` | aegis/brokers/simulated.py:75-153 | over a session equity changes by exactly the fills' costs, up to half a cent per batch |
| `Orders.BuildOrders` | aegis/fund/execution.py:12-54 | fails exactly on a missing mark; otherwise the delta orders, sells then buys, each by ticker |
| `Orders.OrdersMeaning` | aegis/fund/execution.py:24-54 | one order for each ticker whose target differs from its holding, for exactly the difference at its mark; sells before buys, each by ticker |
| `Orders.TargetIsLargest` | aegis/fund/execution.py:27-30 | the target is the largest whole position the ticker's value pays for, short positions likewise |
| `Orders.SellsWithinHoldings` | aegis/fund/execution.py:28-33 | with non-negative weights a sell never exceeds the holding |
| `Orders.TargetsReached` | aegis/fund/execution.py:27-30 | a batch that commits leaves every ticker at exactly its truncated target and holds nothing else |
| `Orders.RebuildIsEmpty` | aegis/fund/execution.py:30-32 | rebuilding with the same weights, marks and equity gives no orders |
| `Orders.AllOrdersFillable` | aegis/fund/execution.py:24-54 | the orders are whole, distinct by ticker and ID, and sell only what is held |
| `Orders.OnlyCashRefuses` | aegis/brokers/simulated.py:90-149 | such orders are refused only for a worthless fill or for cash |
| `Orders.ReserveCoversCosts` | aegis/risk/checks.py:105-112 | unrounded cash after the batch is at least the reserve's share of equity less costs and half a cent |
| `Orders.AffordableBatchCommits` | aegis/brokers/simulated.py:148-149 | a batch whose costs fit the reserve less half a cent never fails for cash |
| `Orders.AffordableOrdersCommit` | aegis/brokers/simulated.py:148-149 | the same from a bound known before the batch: commission and slippage rates on the ordered quantities and references |
| `Cycle.CurrentWeightsLong` | aegis/brokers/simulated.py:66-73 | the weights of a sound account are long-only |
| `Cycle.FinalBook` | aegis/fund/run_cycle.py:131-137 | what the gate hands to order construction is long-only and keeps the cash minimum |
| `Cycle.CalculatedNav` | aegis/fund/run_cycle.py:163-165 | the position-by-position sum is the raw equity, and every short is seen |
| `Cycle.Trade` | aegis/fund/run_cycle.py:143-153 | orders built and run reach the plan, or the broker is untouched and the error is the first in the way |
| `Cycle.TradeIfApproved` | aegis/fund/run_cycle.py:139-153 | trades exactly when approved and not merely holding; every ticker at its planned quantity and NAV near equity; fails only for the trade's own failure |
| `Cycle.Reconcile` | aegis/fund/run_cycle.py:155-168 | accepts exactly states without negative cash or shorts, restores otherwise; the NAV comparison can never fail |
| `Cycle.RecordValidIff` | aegis/fund/ledger.py:60-85 | the record of a cycle passes its validator if and only if a legacy dossier has no quant bundle, or an institutional one has and the master portfolio is of the fund's mandate and the case's time |
| `Cycle.BatchMoves` | aegis/fund/run_cycle.py:153 | a committed batch leaves the account as it was if and only if it is empty |
| `Cycle.RunCycle` | aegis/fund/run_cycle.py:80-255 | succeeds if and only if the marks, weights and bundle are there, the batch commits, the record builds and the ledger accepts, and otherwise raises the first failure; a ledger refusal rolls the batch back; after any error the broker is as it was if and only if the record can be built or the cycle moved nothing; a success settles the receipt |
| `Cycle.LegacyBundleStrandsFills` | aegis/fund/run_cycle.py:226-248 | a concrete legacy cycle with a quant bundle that trades and then cannot build its record |
| `Cycle.ApprovedBatchCommits` | aegis/fund/run_cycle.py:143-153 | an approved cycle cannot fail for cash while the bound on its orders' costs fits the policy's cash minimum |
| `Receipts.CheckStream` | aegis/research_lab/receipt_series.py:124-135 | admits exactly streams of two or more institutional receipts of one mandate in increasing time |
| `Receipts.DeriveObservations` | aegis/research_lab/receipt_series.py:115-161 | succeeds exactly when every adjacent pair is usable and valid, with one observation per pair |
| `Receipts.ObservationMeaning` | aegis/research_lab/receipt_series.py:138-161 | NAV with the entry cost restored, grown by the return, is the next opening equity; turnover times equity is the traded notional |
| `Receipts.FlatMarksReturn` | aegis/research_lab/receipt_series.py:138-145 | at unchanged marks the return times the base is minus the entry cost |
| `Receipts.GrossIsCostFreeOnlyWithoutCosts` | aegis/research_lab/receipt_series.py:138-145 | the return is the held book's own if and only if nothing was charged or the label is worthless |
| `Desk.Exec` | aegis/harness/graph.py:633-672 | a step runs one enabled role, adds exactly its artifact and keeps the joins satisfied, or raises |
| `DeskLaws.NodeFrame` | aegis/harness/graph.py:220-230 | a parallel sibling writes nothing a node reads |
| `DeskLaws.MergeCommutes` | aegis/harness/state.py:20-35 | the reducers give the same state for parallel updates in either order |
| `DeskLaws.SuperstepIsInterleaving` | aegis/harness/graph.py:664-669 | two nodes reading one snapshot and merging give what running them in turn gives |
| `DeskLaws.StageIsInterleaving` | aegis/harness/graph.py:664-669 | so does a stage of any size in any order |
| `DeskLaws.Commute` | aegis/harness/graph.py:664-669 | parallel roles give the same outcome in either order, errors included |
| `DeskLaws.Completes` | aegis/harness/graph.py:663-671 | the desk never deadlocks: every run can be carried to its end |
| `DeskLaws.Confluent` | aegis/harness/graph.py:633-672 | every complete interleaving from a state ends the same way |
| `DeskLaws.RunKeepsInv` | aegis/harness/graph.py:408-592 | every state of every run satisfies the desk's invariant |
| `DeskLaws.DeskFailsClosed` | aegis/harness/graph.py:408-592 | a failure up to the CIO, or a verifier that does not pass, abstains every forecast; a standing forecast cites only auditor-approved evidence within the bundle |
| `DeskOutcome.CioSpeaks` | aegis/harness/graph.py:519-545 | the CIO keeps the slate clean exactly when nothing failed and its list is usable, and then passes it on; otherwise one forecast per case ticker at the case's time and horizon |
| `DeskOutcome.BlanksPerName` | aegis/harness/graph.py:519-545 | the blank forecasts are abstentions without evidence, one for each name in order |
| `DeskOutcome.DeskSpeaksExactlyWhenSanctioned` | aegis/harness/graph.py:491-592 | the final forecasts are the CIO's own, unaltered, if every role answered and the verifier and its checks pass; otherwise all abstain, on the CIO's own subjects or, if a role failed, on one per case ticker |
| `ExperimentLedger.Ledger.Initialize` | aegis/research_lab/experiments.py:46-103 | chains every unchained row in order of id, all or nothing: the appended links carry the sorted unchained ids; the result verifies exactly when the old chain did |
| `ExperimentLedger.ChainedInOrder` | aegis/research_lab/experiments.py:64-88 | chaining a list of ids keeps the old chain and appends their links in that order |
| `ExperimentLedger.Ledger.VerifyChain` | aegis/research_lab/experiments.py:105-128 | passes exactly the verified tables |
| `ExperimentLedger.Ledger.Append` | aegis/research_lab/experiments.py:130-162 | refuses on a broken chain and otherwise does what the append specification says, or nothing |
| `ExperimentLedger.Ledger.Get` | aegis/research_lab/experiments.py:164-176 | the stored record, or why it cannot be returned |
| `ExperimentLedger.CountIsCoverage` | aegis/research_lab/experiments.py:126-128 | the count check holds if and only if the commitments name exactly the stored experiments |
| `ExperimentLedger.AppendKeepsVerified` | aegis/research_lab/experiments.py:130-162 | an append keeps the ledger verified, the old chain a prefix, every stored row, and adds at most one link |
| `ExperimentLedger.AppendIdempotent` | aegis/research_lab/experiments.py:139-142 | appending the same record again changes nothing |
| `ExperimentLedger.EveryLedger` | aegis/research_lab/experiments.py:130-162 | over every run of appends the ledger verifies and nothing committed is lost |
| `ExperimentLedger.RunsStayGenuine` | aegis/research_lab/experiments.py:130-162 | over every run of appends each stored row stays the canonical JSON and digest of a record of its id |
| `ExperimentLedger.OnlyOtherContentIsRefused` | aegis/research_lab/experiments.py:139-162 | without hash collisions an append is refused if and only if the id stands for another record |
| `ExperimentLedger.ReadBack` | aegis/research_lab/experiments.py:164-176 | an accepted record reads back as it was after any later appends |
| `ExperimentLedger.HeadPinsHistory` | aegis/research_lab/experiments.py:105-128 | a verified ledger containing a published head anywhere begins with the chain it was published for |
| `ExperimentLedger.SameHeadSameChain` | aegis/research_lab/experiments.py:105-128 | two verified ledgers with the same last commitment hash have the same commitments |
| `ExperimentLedger.CommitmentsPinRecords` | aegis/research_lab/experiments.py:120-128 | with the same commitments no record can be added, dropped or given another hash |
| `ExperimentLedger.SameHeadSameRecords` | aegis/research_lab/experiments.py:164-176 | two verified ledgers with the same head return the same record for every id |
| `ThesisLedger.Ledger.constructor` | aegis/fundamentals/thesis.py:30-44 | opens whatever the file holds |
| `ThesisLedger.Ledger.Append` | aegis/fundamentals/thesis.py:46-86 | does what the append specification says, or raises and stores nothing |
| `ThesisLedger.Ledger.ReadHistory` | aegis/fundamentals/thesis.py:88-103 | the selected theses in order of version, or the first row's failure |
| `ThesisLedger.Ledger.Latest` | aegis/fundamentals/thesis.py:105-107 | the last of the history, if any |
| `ThesisLedger.QueryIsOrderedSelection` | aegis/fundamentals/thesis.py:89-96 | for any table the rows read are the wanted ones, each once, by version |
| `ThesisLedger.AppendRefinesAccept` | aegis/fundamentals/thesis.py:50-86 | the table accepts exactly the next legal version of a ticker or a repeat; neither the uniqueness constraint nor an unreadable row is ever met |
| `ThesisLedger.EveryLedger` | aegis/fundamentals/thesis.py:46-103 | whatever was sent, each ticker's history reads back without error as versions 1..n linked by supersession, strictly later each time, by legal status steps |
| `ThesisLedger.EndsOfLife` | aegis/fundamentals/thesis.py:18-26 | at most one version, an archived one, follows invalidated or resolved; none follows archived; draft is never returned to |
| `ThesisLedger.QueryRefines` | aegis/fundamentals/thesis.py:89-96 | on a sound ledger the query returns the selected versions in order of acceptance |
| `ThesisLedger.AsOfRead` | aegis/fundamentals/thesis.py:88-103 | with one UTC offset an as-of read is exactly the prefix known at that instant |
| `ThesisLedger.AsOfIsStable` | aegis/fundamentals/thesis.py:88-103 | no run of later appends dated after a query changes its answer |
| `ThesisLedger.TextOrderIsTimeOrderIff` | aegis/fundamentals/thesis.py:92-93 | text order is time order for all instants if and only if the offsets are equal |
| `ThesisLedger.OneVersionReadRightIff` | aegis/fundamentals/thesis.py:88-103 | as-of reads of the ledger sent one thesis are right at all instants if and only if thesis and query carry one UTC offset |
| `ThesisLedger.MixedOffsetsMislead` | aegis/fundamentals/thesis.py:88-103 | concrete times for which the read of a reachable ledger hides a known version or returns a future one |
| `ThesisLedger.RewritingIsDetected` | aegis/fundamentals/thesis.py:98-102 | rewriting stored JSON under untouched digests is either seen or makes no difference |
| `Sampling.OverlapIff` | aegis/research_lab/validation.py:67-71 | inclusive label intervals share an instant exactly when neither ends before the other begins |
| `WalkForward.IntervalPurgedWalkForward` | aegis/research_lab/validation.py:55-122 | one specified fold per split, or exactly the first error in the order of the checks |
| `WalkForward.BlockSizes` | aegis/research_lab/validation.py:100-104 | every test block has an equal share of the samples after the minimum training size, the last one the remainder too |
| `WalkForward.TestFoldsCover` | aegis/research_lab/validation.py:101-105 | together the tests are exactly the unlocked indices from the minimum training size on |
| `WalkForward.TestFoldsOrdered` | aegis/research_lab/validation.py:103-105 | test folds are disjoint and follow one another |
| `WalkForward.TrainingIsExactlyTheClearPast` | aegis/research_lab/validation.py:109-118 | an unlocked earlier index trains if and only if it precedes the embargo and overlaps no test interval; its label then ends before every test prediction |
| `WalkForward.OnlyUnlockedPastTrains` | aegis/research_lab/validation.py:112-118 | only unlocked indices before the test block train |
| `WalkForward.TrainingNested` | aegis/research_lab/validation.py:112-118 | training folds only grow from split to split |
| `WalkForward.LongerEmbargo` | aegis/research_lab/validation.py:109-118 | a longer embargo leaves tests alone and only removes training samples |
| `CombinatorialFolds.CombinationsAreChoices` | aegis/research_lab/validation.py:189 | the combinations are exactly the ascending choices |
| `CombinatorialFolds.CombinationsInOrder` | aegis/research_lab/validation.py:189 | they come in lexicographic order, none twice |
| `CombinatorialFolds.CombinationCount` | aegis/research_lab/validation.py:189 | there are C(n, k) of them |
| `CombinatorialFolds.ChosenEquallyOften` | aegis/research_lab/validation.py:189 | each group is in C(n-1, k-1) of them |
| `CombinatorialFolds.GroupsCover` | aegis/research_lab/validation.py:187 | the split into groups ends where the samples do |
| `CombinatorialFolds.GroupOf` | aegis/research_lab/validation.py:187 | every sample lies in a group |
| `CombinatorialFolds.OneGroup` | aegis/research_lab/validation.py:187 | and in only one |
| `CombinatorialFolds.IntervalCombinatorialPurgedSplits` | aegis/research_lab/validation.py:151-214 | the folds of all combinations that test anything, or exactly the error the code raises |
| `CombinatorialFolds.TestedEquallyOften` | aegis/research_lab/validation.py:189-197 | every unlocked index is tested in exactly C(groups-1, testGroups-1) folds |
| `CombinatorialFolds.TrainingIsExactlyTheClear` | aegis/research_lab/validation.py:198-208 | an index trains if and only if it is unlocked and its label interval meets no test interval extended by the embargo; no fold trains on its test; no locked index appears |
| `CombinatorialFolds.FoldsAscending` | aegis/research_lab/validation.py:190-208 | training and test indices of every fold are ascending, none twice |
| `CombinatorialFolds.NoFoldsIff` | aegis/research_lab/validation.py:196-213 | no fold at all if and only if every sample is locked |
| `Valuation.YearChangesValueBy` | aegis/fundamentals/valuation.py:33-57 | exactly what one more explicit year adds to the value |
| `Valuation.SteadyYearIff` | aegis/fundamentals/valuation.py:33-57 | a year of NOPAT grown at the terminal rate leaves the value alone if and only if its cash flow is the steady one |
| `Valuation.HorizonIndependence` | aegis/fundamentals/valuation.py:33-57 | appending any number of steady years leaves explicit plus terminal value unchanged |
| `Valuation.FirstYearOff` | aegis/fundamentals/valuation.py:33-57 | value grown by a year at the discount rate is the first year's cash flow plus the value of the rest |
| `Valuation.SteadyValue` | aegis/fundamentals/valuation.py:33-57 | a forecast steady from its first year is worth that year's cash flow over rate less growth |
| `Valuation.SolveImpliedAssumption` | aegis/fundamentals/valuation.py:312-384 | errors and infeasibility exactly; an early exit meets the tolerance; exhaustion ends at the midpoint of a sign-changing bracket halved each step, strictly sign-changing when the tolerance is not negative |
| `Valuation.ExhaustedResidual` | aegis/fundamentals/valuation.py:359-370 | for an L-Lipschitz valuation the exhausted residual is at most L·(upper - lower) halved once per iteration |
| `Valuation.ExhaustedDistance` | aegis/fundamentals/valuation.py:359-370 | for a strictly increasing valuation the answer is within that halved width of the exact root |
| `Valuation.HalfIsQuotient` | aegis/fundamentals/valuation.py:360-370 | halving k times divides by 2^k |
| `Revisions.SelectLatest` | aegis/quant_research/universe.py:113-139 | the sort-and-overwrite loop computes the selection or raises on the first clash; every row returned was published, and a factor row observed, by the cutoff |
| `Revisions.ScanMeaning` | aegis/quant_research/factors.py:127-149 | over any list sorted by key, availability and revision the scan raises exactly on ambiguity and otherwise holds the newest row of every key |
| `Revisions.SelectionMeaning` | aegis/quant_research/factors.py:123-155 | fails exactly when two different visible rows share key, availability and revision; otherwise the newest row of every key in key order |
| `Revisions.SelectionOnFields` | aegis/quant_research/factors.py:123-155 | the same on the rows' own fields: fails exactly when two different known rows of a data point tie in publication and revision; returns exactly the known rows nothing known follows; loses no known data point |
| `Revisions.OnlyVisibleRowsMatter` | aegis/quant_research/universe.py:113-139 | input order, repeats and rows published or observed after the cutoff change nothing, errors included |
| `Revisions.LaterRowsChangeNothing` | aegis/quant_research/universe.py:116 | adding rows published or observed after the cutoff leaves the selection as it was |
| `Revisions.LaterCutoffOnlyAdvances` | aegis/quant_research/factors.py:123-155 | a later cutoff never loses a data point, goes back to an older row, or heals an ambiguity |

## Left out

- Floating point and Decimal's 28-digit context: all arithmetic is exact, so the finite-value checks (`_finite_mapping`, non-finite weights and scores) have no counterpart.
- SHA-256 and canonical JSON: functions given as parameters; injectivity is assumed only where a lemma says so. Order IDs only need to tell tickers apart.
- SQLite, HTTP, files and clocks: tables are sequences and maps, transactions are atomic, the append-only triggers are not modelled.
- Pydantic validation beyond the ranges, the ticker form and the record validator the proofs use, and upper-casing of tickers in the sector map.
- Shorting inside the simulated broker: the class documents itself as long-only, so `allow_shorting` is false there and in the cycle.
- Order and fill metadata, `positions`, snapshot staleness and future-bar checks, forecast providers, strategy blending and the contents of a cycle's reproducibility manifest; that the build files can be read and that the ledger accepts are one boolean input each, and the cycle's master portfolio is given.
- `numpy` eigenvalues, solves and the square root in the distances: distances and covariances of the clustering and the split are given, with the code's floors.
- The other portfolio models, and the concentration statistics of a result: direct formulas or library calls.
- The sealed provider answers by role: the context hash it is also given is fixed for a run and is not modelled. The construction of claims and the numeric evidence audit are one predicate on the specialists' artifacts. The re-audit after a run is not modelled.
- Timezone-awareness checks of the fold builders and of revision rows: times are integers, so rows that differ only in how they write one instant are one row.
- The valuation function of the reverse DCF is total: an error raised inside it is not modelled. Sensitivity grids, comparables and scenario blending are direct formulas.
- Sharpe and PBO statistics, index-only folds, event studies, regimes, behavioural features, scorecards, capability budgets, memory, relations and the evidence ledger: easier relatives of what is proved here, or library-heavy.
