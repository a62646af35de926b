# Verified core of an options and futures protocol

A Dafny model of the integer rules behind a Solana options and futures protocol, with proofs of what those
rules are meant to guarantee. The model covers these parts; each follows the branches, roundings, error
conditions and constants of the Rust code.

* **Earn Fund** (`EarnFund*.dfy`, `SlotBook.dfy`, `SlotRounds.dfy`). A fund sells shares, converts deposits lazily, queues
  redemptions in a ring of batches and closes an epoch with a roll. A run is any sequence of actions on any
  number of positions; every action first settles the position it touches. The value model carries the
  theorems; `EarnFundObjects.dfy` and `EarnFundPositions.dfy` are the mutable objects, proved to move exactly
  as the value model.
* **Writer reserve** (`WriterSeries.dfy`, `WriterCandidates.dfy`, `WriterReserve.dfy`, `Prepared*.dfy`,
  `SafeIssue.dfy`). The worst-case liability of a book of capped calls and puts from finitely many candidate
  prices, two incremental caches, and the largest safe issue.
* **Owner portfolios and lots** (`WriterPortfolio.dfy`, `Portfolio*.dfy`, `Participation*.dfy`). Signed
  payoffs, a portfolio state machine that stays payable at every price, telescoping settlement deltas, and
  capital-time lots with their 192-bit long division.
* **Routing and escrow** (`Orders.dfy`, `OrderRuns.dfy`, `DlmmMath.dfy`, `WriterAdmission.dfy`,
  `WriterRetirement.dfy`, `Route*.dfy`). One price-ordered loop over ordinary bins, resting orders and writer
  bins, with an admission check before each writer fill.
* **Buy-back mark** (`OrderStatistics.dfy`, `BuybackMark.dfy`, `MarkedValue.dfy`) and **proposal codec**
  (`Sorting.dfy`, `Leb128.dfy`, `Proposal*.dfy`, `DenseFills.dfy`). LEB128 follows section 7.6 of the DWARF 5
  standard.

`Numbers.dfy` holds the machine integers as bounded integers and the rounding facts, `Sums.dfy` sums and filters
over sequences, `Wrappers.dfy` optional values. Arithmetic is unbounded, and every place where the program checks, saturates or
wraps is written out. `dafny verify dfyconfig.toml` checks everything.

## Where the code and its comments differ

* A proposal is documented as encodable whenever its fills are sorted, unique and nonzero. The u16 run
  length cannot hold 65536, so a ladder side that fills every step with equal lots aborts
  (`ProposalTheorem.FlatLadderAborts`); `ProposalTheorem.RoundTripIff` gives the exact domain. Decoding can
  still produce such a proposal, from two shorter runs (`ProposalTheorem.FlatLadderDecodes`).
* The participation guard is described as equivalent to checking every lot. It is, for exact proportions
  (`ParticipationRuns.AdmitIffEveryLotBears`). For the rounded payouts it lies between "every lot is paid a
  positive amount" and "no lot is insolvent" (`ParticipationRuns.GuardIsPinned`): it rejects a payable pool only
  when the longest lots are paid exactly zero (`ParticipationRuns.RejectedLongestGetNothing`), and such a pool
  exists (`ParticipationRuns.GuardIsConservative`).
* The issue walk is described as exactly equivalent to recomputing the complete reserve for each size. It is,
  exactly where the issued book still fits u64 (`SafeIssue.GatesAreRecomputation`); with a wide spread and a
  large bid the gates hold where the recomputation overflows (`SafeIssue.RecomputationCanOverflow`).
* After a partial fill of a resting ask the router may carry on with change too small to buy one atom; a later
  bin then takes that change and pays nothing (`RouteExample.ChangeIsTaken`; the exact condition is
  `DlmmMath.DustBuysNothing`). Price priority is therefore stated for bins that pay output.

## Assumptions

* The slot book's round counter is below its saturation point (fewer actions than a u64 counts); no
  assumption is made about the clock.
* A prepared reserve supplied to the router or to a retirement was built from the same book; the program
  itself checks only its series, bounds and initial open interest.
* LP fees are zero, as the fee calculation always returns zero; fee fields are not carried.
* A failed action changes nothing, as a failed transaction does.

## Model

| member | source | states |
|---|---|---|
| EarnFundRoll.RollFailsOnlyByOverflow | programs/light_token_minter/src/earn_fund_math.rs:578-736 | from any consistent ledger that is due, closing the epoch can fail only by arithmetic overflow: paying more than the cash, overfilling the ring and ending inconsistent are unreachable |
| EarnFundRoll.RollConserves | programs/light_token_minter/src/earn_fund_math.rs:578-736 | a successful roll leaves a consistent ledger, free + pending + reserved unchanged, and shares changed by exactly what was minted and burned |
| EarnFundRoll.RollKeepsHolders | programs/light_token_minter/src/earn_fund_math.rs:578-736 | for every true open value between the two marks a roll never lowers (free cash + value) per remaining share, all rounding included |
| EarnFundRoll.ConvertKeepsHolders | programs/light_token_minter/src/earn_fund_math.rs:442-446 | entering now at the upper mark never dilutes existing holders |
| EarnFundRoll.InstantKeepsHolders | programs/light_token_minter/src/earn_fund_math.rs:508-554 | an accepted instant quote always applies, leaving now at the lower mark never dilutes those who stay, and open sleeves always keep a shareholder |
| EarnFundRoll.FillRollFacts | programs/light_token_minter/src/earn_fund_math.rs:658-690 | the fill pays within the free cash, never burns the last share while invested, completes every batch it can pay in full, otherwise fills with the greatest fill the cash buys, and can only overflow |
| EarnFundRoll.FillIsProRata | programs/light_token_minter/src/earn_fund_math.rs:664-688 | there is one fill that every batch gets the same fraction of, rounded down, at the roll price rounded down; it is the whole queue, short of one share when that is the last one while invested, or the most whole shares the cash pays for |
| EarnFundRoll.RollSucceeds | programs/light_token_minter/src/earn_fund_math.rs:578-736 | from any consistent due ledger a roll succeeds whenever the vault, the marked assets and the batches' fills fit u64 |
| EarnFundRollExact.RollExact | programs/light_token_minter/src/earn_fund_math.rs:578-736 | a successful roll in terms of the ledger before it: deposits convert exactly when the shares they buy at the upper mark are at least one and fit, the newest batch joins exactly when a slot is free or everything completes, the queue is filled with the greatest affordable fill, and every other field moves as stated |
| EarnFundRollExact.NotReadyIff | programs/light_token_minter/src/earn_fund_math.rs:585-589 | a roll is refused as not ready exactly before its epoch's time or at the last epoch |
| EarnFundRollExact.NoIdleCash | programs/light_token_minter/src/earn_fund_math.rs:658-707 | a roll that leaves batches open has spent its cash: what is left buys less than one share and one atom for each batch filled, unless only the last share was kept back while invested |
| EarnFundSettlement.MemberPayable | programs/light_token_minter/src/earn_fund_math.rs:249-262 | a member of a batch was never overpaid and the batch still holds what it is entitled to |
| EarnFundSettlement.SettlePendingKeeps | programs/light_token_minter/src/earn_fund_math.rs:859-874 | converting a pending deposit from its record passes both guards and keeps the whole run invariant |
| EarnFundSettlement.SettleOpenKeeps | programs/light_token_minter/src/earn_fund_math.rs:877-896 | crediting a member of an open batch succeeds and keeps the whole run invariant |
| EarnFundSettlement.SettleCompletedSucceeds | programs/light_token_minter/src/earn_fund_math.rs:901-938 | leaving a completed batch pays the entitlement, returns the last leaver's dust, and fails exactly when that dust would overflow the free cash |
| EarnFundSettlement.SettleKeeps | programs/light_token_minter/src/earn_fund_math.rs:836-938 | no settlement guard can fire: settling succeeds exactly when the returned dust fits the free cash, and keeps the run invariant |
| EarnFundInvariant.RollKeeps | programs/light_token_minter/src/earn_fund_math.rs:578-736 | a roll and its new record keep the run invariant: shares, pending windows, batch accounts, batch locations and reserve |
| EarnFundInvariant.StepKeeps | programs/light_token_minter/src/earn_fund_state.rs:865-919 | every successful action of the fund keeps the run invariant |
| EarnFundInvariant.EveryRunKeepsInvariant | programs/light_token_minter/src/earn_fund_math.rs:342-1036 | over every run of actions on any positions: total shares = owned + queued + unsettled converted shares; pending = unconverted deposits; reserved = claimable + unpaid fills of open and completed batches; every batch is in exactly one place |
| EarnFundInvariant.EveryRunSettles | programs/light_token_minter/src/earn_fund_math.rs:836-938 | in every reachable world settling a position succeeds exactly when its dust fits the free cash, so always when the vault fits one u64 |
| EarnFundInvariant.EveryRunRolls | programs/light_token_minter/src/earn_fund_math.rs:578-736 | in every reachable world that is due a roll succeeds when the vault, the marked assets and the open fills fit u64; batch ids cannot run out |
| EarnFundInvariant.EntitlementsCovered | programs/light_token_minter/src/earn_fund_math.rs:249-254 | entitlements of the remaining members plus what leavers took never exceed the filled atoms of a batch |
| EarnFundInvariant.EveryRunCoversEntitlements | programs/light_token_minter/src/earn_fund_math.rs:249-254 | the same for every open and completed batch of every reachable world |
| EarnFundFlows.EveryRunConservesCash | programs/light_token_minter/src/earn_fund_math.rs:342-1036 | after every run free + pending + reserved = what all owners deposited - what they withdrew + what sleeves returned - what they were sent, and deployed = sent - principal returned |
| EarnFundFlows.SettleExact | programs/light_token_minter/src/earn_fund_math.rs:836-938 | a settlement gives exactly the floored shares at the price of the roll that converted the deposit, and credits exactly up to the floored part of the batch, open or completed; nothing due changes nothing |
| EarnFundFlows.ActPays | programs/light_token_minter/src/earn_fund_math.rs:940-1036 | what each action gives or takes from the owner: deposit, refund, queueing, instant exit at the floored worth, completed withdrawal |
| EarnFundFlows.InstantIff | programs/light_token_minter/src/earn_fund_math.rs:476-543 | an instant exit is quoted exactly when shares, last-share rule, free cash and the drained bucket allow it, at the floored worth at the lower mark |
| EarnFundFlows.InstantPayoutsBounded | programs/light_token_minter/src/earn_fund_math.rs:480-554 | over any stretch of any run with a clock that does not run backwards, instant exits pay at most one cap plus one cap a day |
| EarnFundFlows.ConvertNowExact | programs/light_token_minter/src/earn_fund_math.rs:420-446 | entering now mints exactly the floored shares at the upper mark, or par from nothing |
| EarnFundFlows.AllocateIff | programs/light_token_minter/src/earn_fund_math.rs:742-759 | cash is deployed exactly when it reaches the minimum, is there, and leaves the buffer of free plus deployed |
| EarnFundObjects.Fund.constructor | programs/light_token_minter/src/earn_fund_math.rs:344-351 | a new ledger object is the empty ledger |
| EarnFundObjects.Fund.IsConsistent | programs/light_token_minter/src/earn_fund_math.rs:354-381 | the walk over the ring decides exactly the value model's consistency |
| EarnFundObjects.Fund.Deposit | programs/light_token_minter/src/earn_fund_math.rs:448-454 | the object moves exactly as the value model, and is unchanged on error |
| EarnFundObjects.Fund.RefundPending | programs/light_token_minter/src/earn_fund_math.rs:457-463 | likewise for refunding pending money |
| EarnFundObjects.Fund.ApplyConversion | programs/light_token_minter/src/earn_fund_math.rs:430-438 | likewise for an immediate conversion |
| EarnFundObjects.Fund.ConvertPending | programs/light_token_minter/src/earn_fund_math.rs:442-446 | likewise for converting at the upper mark |
| EarnFundObjects.Fund.Enqueue | programs/light_token_minter/src/earn_fund_math.rs:466-474 | likewise for joining the accumulating batch |
| EarnFundObjects.Fund.ApplyInstant | programs/light_token_minter/src/earn_fund_math.rs:546-554 | likewise for an instant exit |
| EarnFundObjects.Fund.Allocate | programs/light_token_minter/src/earn_fund_math.rs:742-759 | likewise for deploying cash |
| EarnFundObjects.Fund.Collect | programs/light_token_minter/src/earn_fund_math.rs:762-767 | likewise for collecting a receipt |
| EarnFundObjects.Fund.Roll | programs/light_token_minter/src/earn_fund_math.rs:578-736 | the epoch close with its loops over the batch array is the value model's roll, which RollExact describes; nothing changes when it fails |
| EarnFundObjects.FillBatches | programs/light_token_minter/src/earn_fund_math.rs:673-688 | the fill loop over the array equals the recursive fill, with the shares burned and atoms paid |
| EarnFundObjects.RingQueue | programs/light_token_minter/src/earn_fund_math.rs:354-381 | one walk accepts exactly the well-formed rings and counts their queued shares |
| EarnFundPositions.Position.SettlePending | programs/light_token_minter/src/earn_fund_math.rs:859-874 | the position and record objects move as the value model |
| EarnFundPositions.Position.SettleOpenBatch | programs/light_token_minter/src/earn_fund_math.rs:877-896 | the position and fund objects move as the value model |
| EarnFundPositions.Position.SettleCompletedBatch | programs/light_token_minter/src/earn_fund_math.rs:901-938 | the position, record and fund objects move as the value model |
| EarnFundPositions.Position.AddPending | programs/light_token_minter/src/earn_fund_math.rs:949-957 | the position object moves as the value model |
| EarnFundPositions.Position.TakePending | programs/light_token_minter/src/earn_fund_math.rs:986-995 | the position object moves as the value model |
| EarnFundPositions.Position.Queue | programs/light_token_minter/src/earn_fund_math.rs:1008-1022 | position and fund objects move together as the value model |
| EarnFundPositions.Position.Complete | programs/light_token_minter/src/earn_fund_math.rs:1025-1035 | position and fund objects pay out together as the value model |
| SlotBook.EveryRunAgrees | programs/light_token_minter/src/earn_fund_math.rs:1073-1223 | after every run of open, invalidate, record and close the aggregate equals the counters and sums over the full list of marks |
| SlotBook.UsableIsFresh | programs/light_token_minter/src/earn_fund_math.rs:1218-1222 | a usable aggregate means every live slot is priced with a value no older than the limit, and both sums are exact |
| SlotBook.RecordFailsOnlyByOverflow | programs/light_token_minter/src/earn_fund_math.rs:1175-1214 | closing never fails; a valuation is refused exactly for a non-exact value of a final slot or when a sum would leave u64 |
| SlotRounds.EveryRunTurnsRounds | programs/light_token_minter/src/earn_fund_math.rs:1129-1214 | after every run the round, its start, the oldest valuation counted in it and the oldest of the last complete round are what marks and actions say; a round in which every live slot counted never stays standing |
| SlotRounds.UsableIff | programs/light_token_minter/src/earn_fund_math.rs:1216-1222 | the aggregate is usable exactly when every live slot is priced and the oldest valuation of the last complete round is young enough |
| SlotRounds.RecordWrites | programs/light_token_minter/src/earn_fund_math.rs:1170-1206 | a valuation writes exactly its own mark, counting in the round exactly when it is not older than the round; a stale one makes the slot unpriced |
| SlotBook.SlotBookObject.TallyMark | programs/light_token_minter/src/earn_fund_math.rs:1106-1127 | adding or removing a mark in place is the value model's tally |
| SlotBook.SlotBookObject.OpenSlot | programs/light_token_minter/src/earn_fund_math.rs:1145-1153 | the object moves as the value model |
| SlotBook.SlotBookObject.InvalidateMark | programs/light_token_minter/src/earn_fund_math.rs:1159-1168 | the object moves as the value model |
| SlotBook.SlotBookObject.RecordMark | programs/light_token_minter/src/earn_fund_math.rs:1175-1206 | the object moves as the value model |
| SlotBook.SlotBookObject.CloseSlot | programs/light_token_minter/src/earn_fund_math.rs:1209-1214 | the object moves as the value model |
| WriterSeries.CheckBook | programs/light_token_minter/src/writer_sleeve_math.rs:220-237 | the pairwise walk accepts exactly the nonempty, small, valid books of distinct instruments |
| WriterSeries.PayoutMeans | programs/light_token_minter/src/writer_sleeve_math.rs:198-249 | a valid call spread pays zero up to the strike, the difference up to the cap and its width beyond; a put spread mirrors that |
| WriterSeries.PayoutAffine | programs/light_token_minter/src/writer_sleeve_math.rs:240-249 | between neighbouring break points a capped payout is affine |
| WriterSeries.NumeratorAt | programs/light_token_minter/src/writer_sleeve_math.rs:264-279 | the checked fold is the exact weighted payout, and fails exactly when it leaves u128 |
| WriterSeries.LiabilityAtoms | programs/light_token_minter/src/writer_sleeve_math.rs:291-307 | both rounding paths give the one checked ceiling |
| WriterCandidates.CandidatePoints.InsertValue | programs/light_token_minter/src/writer_sleeve_math.rs:103-122 | binary search and shift insert into the sorted unique buffer; full is the only error |
| WriterCandidates.CandidatePoints.InsertNeighbours | programs/light_token_minter/src/writer_sleeve_math.rs:124-133 | a break point with its neighbours costs at most three slots |
| WriterCandidates.BuildCandidates | programs/light_token_minter/src/writer_sleeve_math.rs:321-347 | the buffer built is the canonical candidate set, never refused for size |
| WriterCandidates.CandidatesFacts | programs/light_token_minter/src/writer_sleeve_math.rs:321-347 | a valid book of at most twenty series has at most 128 candidates, sorted, unique, with every break point and neighbour |
| WriterCandidates.CandidateBounds | programs/light_token_minter/src/writer_sleeve_math.rs:321-347 | for any signed weights, the payoff at every u64 price is at most the payoff at some candidate of the same tail |
| WriterReserve.ReserveIsExact | programs/light_token_minter/src/writer_sleeve_math.rs:350-396 | the full, lower-tail and upper-tail reserves bound the rounded liability at every u64 price of their range and are attained there |
| WriterReserve.WitnessIsEarliest | programs/light_token_minter/src/writer_sleeve_math.rs:350-396 | each witness price is the earliest candidate of its range that reaches the reserve, and the candidate count is theirs |
| WriterReserve.ReserveFailsOnlyByOverflow | programs/light_token_minter/src/writer_sleeve_math.rs:350-396 | for a valid book the reserve fails exactly when the liability leaves u64 at some price |
| WriterReserve.ReserveWalk | programs/light_token_minter/src/writer_sleeve_math.rs:350-396 | the running maxima with earliest witnesses are the maxima over the candidate set |
| WriterReserve.AggregateLiability | programs/light_token_minter/src/writer_sleeve_math.rs:310-318 | an invalid book gets its validation error, a valid one the rounded liability or the overflow |
| PreparedReserve.NumeratorSplits | programs/light_token_minter/src/writer_sleeve_math.rs:649-702 | with one open interest replaced, the numerator is the other series' part plus that interest times the payout, at every price |
| PreparedReserve.CandidatesIgnoreOi | programs/light_token_minter/src/writer_sleeve_math.rs:649-702 | candidates and validation do not depend on open interest |
| PreparedReserve.GroupsOfOk | programs/light_token_minter/src/writer_sleeve_math.rs:421-448 | the groups partition the points and hold the exact maximum of each run of equal payout |
| PreparedQuery.Reserve | programs/light_token_minter/src/writer_sleeve_math.rs:704-788 | the cached query equals the full walk on the book with that open interest: three reserves, three witness prices on rounded ties, and the overflow outcome |
| PreparedQuery.GrossAt | programs/light_token_minter/src/writer_sleeve_math.rs:789-795 | the cached gross maximum payout equals the full sum, including overflow |
| PreparedStrip.BuildPrepared | programs/light_token_minter/src/writer_sleeve_math.rs:649-702 | the built cache is the specified basis, or the stated error |
| PreparedStrip.ForTargets | programs/light_token_minter/src/writer_sleeve_math.rs:464-521 | a strip is built exactly when book and targets are accepted and every grid total fits; otherwise the error is the book's, InvalidSeries or overflow, in that order |
| PreparedStrip.Strip.PrepareFor | programs/light_token_minter/src/writer_sleeve_math.rs:523-578 | after any successful updates the strip hands out the cache a fresh build from the current book gives |
| PreparedStrip.Strip.Update | programs/light_token_minter/src/writer_sleeve_math.rs:580-627 | an update succeeds exactly when the new book is representable, then the grid describes the new book |
| SafeIssue.MaximumSafeIssue | programs/light_token_minter/src/writer_sleeve_math.rs:841-933 | returns exactly the largest whole-contract issue within the request for which every gate holds at every price; errors exactly on overflow |
| SafeIssue.RestrictExact | programs/light_token_minter/src/writer_sleeve_math.rs:799-817 | one linear restriction keeps exactly the sizes that fit that gate |
| SafeIssue.GatesAreRecomputation | programs/light_token_minter/src/writer_sleeve_math.rs:833-983 | for every size, recomputing the whole reserve accepts exactly when the linear gates hold at every price and the issued book fits u64 |
| SafeIssue.GatesAgreeWithinWord | programs/light_token_minter/src/writer_sleeve_math.rs:833-983 | when open interest and assets plus premium fit u64, the walk and the recomputation agree |
| SafeIssue.RecomputationCanOverflow | programs/light_token_minter/src/writer_sleeve_math.rs:833-983 | an issue whose every gate holds at every price while the recomputed reserve overflows |
| WriterPortfolio.SignedCeilIsCeil | programs/light_token_minter/src/writer_portfolio.rs:31-34 | truncating division plus one for a positive remainder is the mathematical ceiling, also for negative numerators |
| WriterPortfolio.ReserveLoop | programs/light_token_minter/src/writer_portfolio.rs:87-101 | the loop over the candidates computes the largest rounded signed liability, never below zero, or the checked error |
| WriterPortfolio.ReserveCovers | programs/light_token_minter/src/writer_portfolio.rs:87-101 | the reserve bounds the signed rounded liability at every u64 price |
| WriterPortfolio.ReserveAttained | programs/light_token_minter/src/writer_portfolio.rs:85-101 | the reserve is zero or exactly the rounded liability at some u64 price |
| WriterPortfolio.ReserveIsLeast | programs/light_token_minter/src/writer_portfolio.rs:85-101 | cash covers every settlement price exactly when it is at least the reserve |
| WriterPortfolio.ReserveMonotone | programs/light_token_minter/src/writer_portfolio.rs:87-101 | fewer shorts or more locked longs never raise the reserve |
| PortfolioRuns.EveryRunCovered | programs/light_token_minter/src/writer_portfolio.rs:261-399 | over every run of open, fill, cancel, lock, unlock, buy back, retire and fund the cash covers the reserve until settlement is funded |
| PortfolioLife.EveryRunAccounts | programs/light_token_minter/src/writer_portfolio.rs:238-462 | over every run debits + premiums = cash + refunds + payments + funding debits + claimed cash, and funded credits are still owed or were claimed |
| PortfolioLife.CashMeetsReserve | programs/light_token_minter/src/writer_portfolio.rs:238-399 | after a cancel, lock or buy-back the cash is exactly the reserve of what is then held; an open or unlock asks exactly for the shortfall within the owner's maximum |
| PortfolioLife.RefundIsGreatest | programs/light_token_minter/src/writer_portfolio.rs:251-399 | after a refund the cash covers every price and is exactly met at one: not one more atom could have been refunded |
| PortfolioLife.EveryRunMoves | programs/light_token_minter/src/writer_portfolio.rs:261-414 | over every run committed, filled, locked and retired contracts of each series are exactly what the successful actions moved there |
| PortfolioLife.EveryRunTradesIff | programs/light_token_minter/src/writer_portfolio.rs:217-399 | in every reachable portfolio a trade succeeds exactly while nothing was retired, funded or claimed, its contracts are there to be moved, and the reserve of what is then held can be met or released as the owner allowed |
| PortfolioLife.BuyBackOffsetsFilledOnly | programs/light_token_minter/src/writer_portfolio.rs:358-399 | a buy-back never locks more of a series than was filled |
| PortfolioLife.FundIff | programs/light_token_minter/src/writer_portfolio.rs:416-447 | funding is accepted exactly once, with everything locked retired, and with a whole amount between floor and ceiling of the signed liability |
| PortfolioRuns.CancelAndLockNeverInsolvent | programs/light_token_minter/src/writer_portfolio.rs:251-339 | in a reachable portfolio cancelling and locking never report insolvency; the cash is then exactly the reserve and the refund is all the rest |
| PortfolioRuns.FundingNeverInsolvent | programs/light_token_minter/src/writer_portfolio.rs:416-447 | funding at any price with any debit and credit never reports insolvency in a reachable portfolio |
| PortfolioRuns.LockLoop | programs/light_token_minter/src/writer_portfolio.rs:363-399 | the loop over the twenty legs locks them all or fails at the first bad one |
| PortfolioFunding.DeltasTelescope | programs/light_token_minter/src/writer_portfolio.rs:105-116 | over any owner sequence the deltas add up to the ceiling of the whole minus the ceiling of the prefix |
| PortfolioFunding.EachDeltaAcceptable | programs/light_token_minter/src/writer_portfolio.rs:105-116 | each owner's delta lies between the floor and the ceiling of its own liability |
| PortfolioFunding.PartitionBalances | programs/light_token_minter/src/writer_portfolio.rs:129-177 | with the owners' debits and credits the balance check never fires: where the amounts fit, success means exactly that managed assets cover their liability and outside claims the whole, insolvency exactly the opposite; accounted + stranded = managed assets + debits |
| PortfolioFunding.PartitionChecksBalance | programs/light_token_minter/src/writer_portfolio.rs:129-177 | debits and credits that do not make up the owners' rounded liability are never accepted |
| PortfolioFunding.GroupDeltaIsFundable | programs/light_token_minter/src/writer_portfolio.rs:105-447 | an owner with any history and retired locks is always funded with the delta the group computed for it |
| Participation.ProportionalFloor | programs/light_token_minter/src/writer_participation_math.rs:120-161 | fails exactly for a zero denominator or a numerator above it |
| Participation.LongDivision | programs/light_token_minter/src/writer_participation_math.rs:120-161 | the 64-step division returns the exact floor of the 192-bit product; none of its overflow exits is taken |
| Participation.SplitPreservesPayout | programs/light_token_minter/src/writer_participation_math.rs:45-62 | a split always succeeds inside the lot; the whole is payable exactly when both halves are, and then the halves add up to it |
| Participation.PayoutIs | programs/light_token_minter/src/writer_participation_math.rs:163-210 | a well-formed lot is paid its principal plus or minus its share of the difference; only a loss beyond its principal is refused |
| Participation.ContributeIff | programs/light_token_minter/src/writer_participation_math.rs:64-97 | a contribution is taken exactly while the month is open and the totals fit; its lot starts at the later of now and start and owns the next capital-seconds |
| ParticipationRuns.EveryRunPartitions | programs/light_token_minter/src/writer_participation_math.rs:45-97 | after every history the lots tile the capital-seconds without gap or overlap, principals add up, and the longest duration is recorded |
| ParticipationRuns.SplitKeeps | programs/light_token_minter/src/writer_participation_math.rs:45-62 | in a reachable pool a split fails exactly for a prefix outside the lot |
| ParticipationRuns.EveryRunPaysResidual | programs/light_token_minter/src/writer_participation_math.rs:163-210 | after every history a payout is accepted or insolvent, never another error, and when none is insolvent the payouts add up to the residual exactly |
| ParticipationRuns.RangeIsSumOfLots | programs/light_token_minter/src/writer_participation_math.rs:183-210 | one payout of a contiguous range equals the sum of its lots' payouts |
| ParticipationRuns.AdmitIffEveryLotBears | programs/light_token_minter/src/writer_participation_math.rs:99-114 | the division-free guard accepts exactly when every lot can bear its exact proportion of the worst loss |
| ParticipationRuns.AdmittedNeverInsolvent | programs/light_token_minter/src/writer_participation_math.rs:99-114 | once (assets, reserve) is admitted, at every residual of at least assets - reserve every lot is payable and the payouts add up |
| ParticipationRuns.RejectedLongestGetNothing | programs/light_token_minter/src/writer_participation_math.rs:99-210 | after any history, when the guard rejects a loss every longest lot is insolvent or paid exactly zero |
| ParticipationRuns.GuardIsPinned | programs/light_token_minter/src/writer_participation_math.rs:99-210 | after any history the guard accepts whenever every lot is paid a positive amount, and whenever it accepts no lot is insolvent |
| ParticipationRuns.GuardIsConservative | programs/light_token_minter/src/writer_participation_math.rs:99-114 | between the two lies a reachable pool the guard rejects although every lot is payable |
| Orders.Order.Fill | programs/light_token_minter/src/dlmm_order_math.rs:60-100 | the order object moves as the value model, and is unchanged on error |
| Orders.Order.Release | programs/light_token_minter/src/dlmm_order_math.rs:104-118 | likewise for releasing an unspendable remainder |
| Orders.Order.Cancel | programs/light_token_minter/src/dlmm_order_math.rs:120-140 | likewise for cancelling |
| Orders.Order.Claim | programs/light_token_minter/src/dlmm_order_math.rs:142-147 | hands out both claims and clears them |
| Orders.OlderSetsPrice | programs/light_token_minter/src/dlmm_order_math.rs:170-205 | the quote of every match is the older order's limit on the traded quantity, rounded up |
| Orders.MatchPair | programs/light_token_minter/src/dlmm_order_math.rs:170-205 | both orders move as the value model or neither does, for the older order's limit on the quantity, rounded up |
| OrderRuns.EveryRunConserves | programs/light_token_minter/src/dlmm_order_math.rs:42-147 | over every run the deposit is held, traded or handed back, a live bid affords one atom at its limit, an ask's escrow is its quantity, and an ask never sells below its limit |
| OrderRuns.EveryRunOwesCustody | programs/light_token_minter/src/dlmm_order_math.rs:104-167 | in every reachable state release, cancel and obligations succeed, obligations are exactly what custody holds, and cancel then claim empties the order |
| OrderRuns.FundedIff | programs/light_token_minter/src/dlmm_order_math.rs:33-58 | an order is funded exactly when quantity and price are positive and the whole rounded quote fits |
| OrderRuns.FillIff | programs/light_token_minter/src/dlmm_order_math.rs:60-118 | a reachable order fills exactly when quantity, limit and escrow allow it, for the rounded-up quote; a bid ends and releases its rest exactly when nothing more can be bought |
| OrderRuns.ReleaseAndCancelExact | programs/light_token_minter/src/dlmm_order_math.rs:104-140 | a release never touches a reachable order; a cancel makes exactly the escrow claimable |
| OrderRuns.MatchSucceeds | programs/light_token_minter/src/dlmm_order_math.rs:170-205 | a positive match of live crossing orders trades the greatest quantity both have, the caller wants and the bid pays for, at the older order's limit rounded up; it fails exactly when the ask's proceeds would leave u64 |
| OrderRuns.MatchMovesObligations | programs/light_token_minter/src/dlmm_order_math.rs:149-205 | a match moves equal options and quote between the two sides |
| OrderRuns.MatchExhausts | programs/light_token_minter/src/dlmm_order_math.rs:172-205 | after a match the bid is spent, the ask is sold, or the maximum was reached |
| OrderRuns.EveryRunMatches | programs/light_token_minter/src/dlmm_order_math.rs:42-205 | any two funded orders, whatever happened to each, match that way, at the price the older one was funded with, once they are live and cross |
| DlmmMath.FloorMulDiv | programs/light_token_minter/src/ameba_dlmm_math.rs:101-115 | both widths give the one checked floor |
| DlmmMath.CeilMulDiv | programs/light_token_minter/src/ameba_dlmm_math.rs:118-135 | both widths give the one checked ceiling; the rounding never overflows |
| DlmmMath.FillFacts | programs/light_token_minter/src/ameba_dlmm_math.rs:237-292 | a fill takes at least one atom and no more than offered, pays at most what the price allows, exactly the floor unless it drains the bin, and takes no atom more than draining costs |
| DlmmMath.FillIff | programs/light_token_minter/src/ameba_dlmm_math.rs:237-292 | a bin fills exactly when both sides have something and its cost and the reserve it joins fit u64 |
| DlmmMath.ValueNeverFalls | programs/light_token_minter/src/ameba_dlmm_math.rs:237-292 | a bin is never worth less at its own price after a fill |
| DlmmMath.DustBuysNothing | programs/light_token_minter/src/ameba_dlmm_math.rs:237-292 | in both directions a fill pays nothing exactly when what is offered is worth less than one atom at the price |
| DlmmMath.DustIsTaken | programs/light_token_minter/src/ameba_dlmm_math.rs:237-292 | a buy and a sell that take one atom and pay nothing |
| WriterAdmission.DrawdownIsAllowance | programs/light_token_minter/src/writer_dlmm_math.rs:144-162 | the division-free check is the loss being at most the floored allowance |
| WriterAdmission.GrossLoop | programs/light_token_minter/src/writer_sleeve_math.rs:984-997 | the loop sums the rounded gross payouts, or fails exactly when the sum leaves u64 |
| WriterAdmission.AdmitCashIff | programs/light_token_minter/src/writer_dlmm_math.rs:166-223 | a full-book admission succeeds exactly when, at every u64 price, assets cover liability plus buffer and the loss is within every limit applying there |
| WriterAdmission.AdmitCashReports | programs/light_token_minter/src/writer_dlmm_math.rs:166-223 | an admission reports the exact reserve, the cash beyond reserve and buffer, and the exposure of its mode |
| WriterRetirement.RetireAllTotals | programs/light_token_minter/src/writer_dlmm_math.rs:409-458 | total cost is the sum of the costs and each open interest falls by exactly what was retired |
| WriterRetirement.PriceBoundIff | programs/light_token_minter/src/writer_dlmm_math.rs:431-448 | the price test is: the floor is at least the gap, and cost plus the rounded-up fee is at most the quantity at floor less gap, rounded down |
| WriterRetirement.RetireAllIff | programs/light_token_minter/src/writer_dlmm_math.rs:409-458 | the loop accepts exactly ascending retirements within open interest, caps, price bound and fitting totals, and adds up their floored claims |
| WriterRetirement.RetirementIff | programs/light_token_minter/src/writer_dlmm_math.rs:363-523 | a retirement is admitted exactly when it is well posed, each part is within its series, caps and price bound, the whole within claims and policy caps, and the book and cash left are safe at every settlement price |
| WriterRetirement.RetirementIsSafe | programs/light_token_minter/src/writer_dlmm_math.rs:363-523 | an admitted retirement reports the summed cost, the fresh reserves before and after and their release, and leaves a book and cash safe at every price |
| WriterRetirement.LastChecksNeverFire | programs/light_token_minter/src/writer_dlmm_math.rs:495-512 | the closing check that the cost is covered beyond reserve and buffer can never be the one that refuses |
| WriterRetirement.RetireLoop | programs/light_token_minter/src/writer_dlmm_math.rs:409-458 | the loop over the retirements is the fold of the single step |
| WriterRetirement.AdmitPrepared | programs/light_token_minter/src/writer_dlmm_math.rs:480-494 | admission through a cache of the book is the fresh admission, errors included, except that an overflowing gross is reported before the cash gate |
| WriterRetirement.AdmitFresh | programs/light_token_minter/src/writer_dlmm_math.rs:166-176 | the fresh admission as the program runs it |
| WriterRetirement.Retire | programs/light_token_minter/src/writer_dlmm_math.rs:363-523 | with a cache of the book the outcome is the one without, errors included, except that an overflowing gross may be reported first |
| WriterRetirement.RetirePrepared | programs/light_token_minter/src/writer_dlmm_math.rs:283-360 | a cache that does not match the request is refused, a matching one agrees with the fresh admission |
| RouteAdmission.FloorPassesIff | programs/light_token_minter/src/writer_dlmm_quote.rs:142-149 | the multiplication test is the premium being at least the rounded-up floor |
| RouteAdmission.AdmitTotalsIff | programs/light_token_minter/src/writer_dlmm_quote.rs:142-328 | the fills so far are admitted exactly when the sale earns its rounded-up floor, or the purchase keeps price bound, claims and all caps, and the book and cash after them are safe at every price and bearable by every participant |
| RouteAdmission.BudgetIff | programs/light_token_minter/src/writer_dlmm_quote.rs:116-140 | an amount is within the remaining budget exactly when spending it keeps all four caps |
| RouteAdmission.AdmitTotalsWith | programs/light_token_minter/src/writer_dlmm_quote.rs:152-328 | with or without a cache of the policy's book, a candidate gets the same evidence or refusal |
| RouteAdmission.EvidenceIsFresh | programs/light_token_minter/src/writer_dlmm_quote.rs:67-328 | the evidence equals the fresh admission of the book and the cash after the fills under the policy's limits, a state safe at every price |
| RouteAdmission.ReuseIsFresh | programs/light_token_minter/src/writer_dlmm_quote.rs:78-88 | whatever final state the evidence accepts, its answer is the fresh admission's |
| RoutePriority.WriterInside | programs/light_token_minter/src/writer_dlmm_quote.rs:754-878 | a writer fill happens only when every ordinary bin and order at that price or better is empty |
| RoutePriority.OrderInside | programs/light_token_minter/src/writer_dlmm_quote.rs:700-753 | an order fill leaves the order empty or the trader unable to buy more at that price |
| RoutePriority.PriorityCloses | programs/light_token_minter/src/writer_dlmm_quote.rs:879-895 | closing a bin keeps price priority for every fill so far |
| RouteLoop.OrdinaryStage | programs/light_token_minter/src/writer_dlmm_quote.rs:640-698 | the ordinary stage is its specification and keeps accounts and order of service |
| RouteLoop.OrderStage | programs/light_token_minter/src/writer_dlmm_quote.rs:699-753 | the order loop is its specification and keeps accounts and order of service |
| RouteLoop.ProbeWriter | programs/light_token_minter/src/writer_dlmm_quote.rs:784-874 | the bounded search through the cache finds what the search with fresh admissions finds, which AnswerExact describes |
| RouteLoop.WriterStage | programs/light_token_minter/src/writer_dlmm_quote.rs:754-878 | the writer stage is its specification, which WriterExact describes, and keeps accounts and order of service |
| RouteTrace.WholeOfferTaken | programs/light_token_minter/src/writer_dlmm_quote.rs:784-874 | when the fill of all that remains pays and is admitted, the writer takes exactly that fill |
| RouteWitness.OrdinaryExact | programs/light_token_minter/src/writer_dlmm_quote.rs:640-698 | the ordinary stage fills the bin of this price with all that remains, within the output cap |
| RouteWitness.OrdersExact | programs/light_token_minter/src/writer_dlmm_quote.rs:699-753 | the orders of a price are taken in turn, each with the greatest quantity both sides can trade, until nothing remains, none is left, or one stops the route |
| RouteWitness.AnswerExact | programs/light_token_minter/src/writer_dlmm_quote.rs:784-874 | the writer's answer is the fill of the first accepted among all, a half, down to a sixty-fourth of the full fill and one atom; no fill means each of them was refused |
| RouteWitness.WriterExact | programs/light_token_minter/src/writer_dlmm_quote.rs:754-878 | the writer is asked exactly when eligible, with something to give within cap or budgets, a bin to open, and a price on its side of floor and separation; then it answers as described |
| RouteQuote.VisitExact | programs/light_token_minter/src/writer_dlmm_quote.rs:583-896 | one visit is the best price's ordinary bin, then its orders, then the writer unless nothing remains or an order stopped the route |
| RouteQuote.VisitBin | programs/light_token_minter/src/writer_dlmm_quote.rs:583-896 | one round of the loop is its specification, keeps the loop invariant and passes at least one source |
| RouteQuote.RouteAll | programs/light_token_minter/src/writer_dlmm_quote.rs:583-896 | the loop is the bounded iteration of its round, with or without a cache; its state is reached by visits as described and it ends only for a stated reason |
| RouteQuote.Finish | programs/light_token_minter/src/writer_dlmm_quote.rs:897-952 | the closing checks, and what the finished route guarantees |
| RouteQuote.FinishIff | programs/light_token_minter/src/writer_dlmm_quote.rs:897-952 | a finished loop becomes a route exactly when no unloaded page was within reach and it took and gave enough |
| RouteQuote.QuoteValidated | programs/light_token_minter/src/writer_dlmm_quote.rs:549-952 | with or without a cache the result is the route with fresh admissions; a success conserves input and output over bins and over sources, respects the output cap, never lowers an ordinary bin's value, keeps price priority, was reached by visits that take exactly what each stage must, and its evidence is the fresh admission of the final book and cash; lack of liquidity or output is reported only when such visits end so |
| RouteQuote.Quote | programs/light_token_minter/src/writer_dlmm_quote.rs:463-545 | unsorted, oversized or unusable sources are never routed |
| RouteQuote.RouteLeavesSleeveSafe | programs/light_token_minter/src/writer_dlmm_quote.rs:67-328 | a route with a writer fill leaves the sleeve's final book and cash safe at every settlement price under its own limits; the evidence answers for that state, and no other, as a fresh admission |
| RouteExample.ChangeIsTaken | programs/light_token_minter/src/writer_dlmm_quote.rs:549-952 | a complete route whose last bin takes the change of a partly filled ask and pays nothing |
| OrderStatistics.NearestRank | programs/light_token_minter/src/buyback_mark_math.rs:276-288 | sorts the prefix in place, moves nothing behind it, and returns the nearest-rank order statistic of what was there |
| OrderStatistics.KthIsOrderStatistic | programs/light_token_minter/src/buyback_mark_math.rs:276-288 | that value is a sample with fewer than k samples below and at least k not above |
| OrderStatistics.KthUnique | programs/light_token_minter/src/buyback_mark_math.rs:276-288 | and is the only such value |
| OrderStatistics.KthMonotone | programs/light_token_minter/src/buyback_mark_math.rs:276-288 | raising samples never lowers an order statistic |
| BuybackMark.FoldSample | programs/light_token_minter/src/buyback_mark_math.rs:340-368 | folds one sample into one ring entry in place and no other, wrap-around of the flow sum included |
| BuybackMark.WholeDollarsSaturate | programs/light_token_minter/src/buyback_mark_math.rs:340-378 | whole-dollar flows never wrap: the bucket holds the saturated sum |
| BuybackMark.BucketKeepsWorst | programs/light_token_minter/src/buyback_mark_math.rs:340-378 | a bucket's entry is the highest ask, the lowest bid, all-valid and the saturated flows of all its samples |
| BuybackMark.SeriesHeadLoop | programs/light_token_minter/src/buyback_mark_math.rs:292-337 | the loop with its scratch arrays computes the specified head, and its counters stay in range |
| BuybackMark.HeadMeans | programs/light_token_minter/src/buyback_mark_math.rs:234-337 | the head's prices are whole ticks, up to the maximum payout, of the least covering ask bin and the greatest bid bin under; without a recent bucket the maximum payout and zero |
| BuybackMark.AskBinIsLeast | programs/light_token_minter/src/buyback_mark_math.rs:292-337 | the ask bin is exactly the least one that covers the upper quartile of the bucket maxima and every recent one |
| BuybackMark.BidBinIsGreatest | programs/light_token_minter/src/buyback_mark_math.rs:292-337 | the bid bin is exactly the greatest one under the lower quartile of the bucket minima and every recent one |
| BuybackMark.OrderedHead | programs/light_token_minter/src/buyback_mark_math.rs:292-337 | if every sampled entry has bid at most ask, the bid price never exceeds the price |
| BuybackMark.EveryRunBidUnderAsk | programs/light_token_minter/src/buyback_mark_math.rs:292-368 | if every sample ever folded has bid at most ask, so has the head at any time |
| BuybackMark.ExtraSampleNeverFavours | programs/light_token_minter/src/buyback_mark_math.rs:292-368 | another sample in an already sampled bucket never lowers the price, raises the bid price or raises the valid buckets, for the head at any time |
| MarkedValue.RangeMarkNeverAboveLots | programs/light_token_minter/src/buyback_mark_math.rs:442-475 | after any history the marked value of a range of lots is never above the sum of the lots' marks, and equals it when none is insolvent |
| MarkedValue.CreditedIs | programs/light_token_minter/src/buyback_mark_math.rs:442-462 | a loss is credited in full; of a gain the stated part rounded down, or none when the product leaves u64; never beyond the residual |
| Leb128.ZigzagRoundTrip | futures/crates/futures-math/src/codec.rs:188-194 | unzigzag undoes zigzag on every i64 |
| Leb128.UnzigzagRoundTrip | futures/crates/futures-math/src/codec.rs:188-194 | every u64 is the code of exactly one i64 |
| Leb128.ZigzagIs | futures/crates/futures-math/src/codec.rs:188-190 | non-negative values are the even codes, negative ones the odd codes |
| Leb128.VarRoundTrip | futures/crates/futures-math/src/codec.rs:196-229 | reading a written varint gives the value and stops right behind it |
| Leb128.VarMeans | futures/crates/futures-math/src/codec.rs:219-229 | any bytes decode exactly when one of the first ten ends the varint; the value is that of its groups modulo 2^64, overlong forms included |
| Leb128.LebIsShortest | futures/crates/futures-math/src/codec.rs:196-206 | what is written is the shortest form: continued groups up to a last nonzero one, of exactly this value |
| Leb128.Writer.Put | futures/crates/futures-math/src/codec.rs:196-206 | appends exactly the LEB128 groups of the value |
| Leb128.Reader.ReadVar | futures/crates/futures-math/src/codec.rs:219-229 | reads as specified and moves the cursor over exactly the bytes read |
| ProposalRoundTrip.RunsExpand | futures/crates/futures-math/src/codec.rs:91-97 | merged runs expand to exactly the steps they came from |
| ProposalRoundTrip.AbortIff | futures/crates/futures-math/src/codec.rs:91-97 | merging sorted steps aborts exactly when one ladder side fills every one of the 65536 steps with equal lots |
| ProposalTheorem.EncodeAborts | futures/crates/futures-math/src/codec.rs:58-114 | for sorted fills without duplicates, encoding aborts exactly on a tier above 127 or a full constant ladder |
| ProposalTheorem.RoundTrip | futures/crates/futures-math/src/codec.rs:58-185 | decode undoes encode on every well-formed proposal without a full constant ladder |
| ProposalTheorem.DecodedIsWellFormed | futures/crates/futures-math/src/codec.rs:116-185 | whatever bytes decode, the result is a well-formed proposal |
| ProposalTheorem.RoundTripIff | futures/crates/futures-math/src/codec.rs:58-185 | among all proposals, exactly the well-formed ones without a full constant ladder survive the round trip |
| ProposalTheorem.FlatLadderAborts | futures/crates/futures-math/src/codec.rs:91-97 | a well-formed proposal that cannot be encoded: one lot on every step of one side |
| ProposalTheorem.FlatLadderDecodes | futures/crates/futures-math/src/codec.rs:134-161 | other bytes do decode to that proposal, so decoding accepts more than encoding can write |
| ProposalExample.SampleBytes | futures/crates/futures-math/src/codec.rs:58-114 | a proposal with orders, merged ladder steps, a second tier and a falling potential, byte by byte |
| ProposalMethods.MergeRuns | futures/crates/futures-math/src/codec.rs:91-97 | the one-pass merge is the specified fold |
| ProposalMethods.EncodeProposal | futures/crates/futures-math/src/codec.rs:58-114 | for any proposal the buffer written section by section is the specified encoding, or the abort |
| ProposalMethods.DecodeProposal | futures/crates/futures-math/src/codec.rs:116-185 | the cursor-based decoder accepts and returns exactly what is specified |
| DenseFills.DenseLoop | futures/crates/futures-math/src/codec.rs:42-56 | the nested loops over the zeroed vector are the one walk over both sequences |
| DenseFills.DenseOfSparse | futures/crates/futures-math/src/codec.rs:25-56 | for strictly sorted arcs the dense form of the sparse fills is the fills, padded with zeros when fewer were given |
| DenseFills.SparseOfDense | futures/crates/futures-math/src/codec.rs:25-56 | a well-formed proposal is dense over sorted arcs exactly when each fill names one of them, and sparsifying it again gives it back |

## Left out

- Accounts, token transfers, PDA derivation, signatures, hashing and the fixed-width state codecs.
- The instruction processors, which choose the inputs of the rules modelled here.
- The governance gate and manifest, trading sessions, projections and proof accounts.
- The futures solver and verifier, the payoff rounding of futures and the oracle program.
- Floating-point model prices of the futures client.
- DLMM share deposits and withdrawals, page bitmaps, and the standalone exact-input quote.
- The depth walks, viability rules, sale-capacity proxy and exit bucket of the buy-back mark.
- How the two marks of a slot compare: the slot book takes any pair and raises the upper to the lower, as its model does.
- Reusing the buffers of an existing cache (`prepare_into`) and rebasing one onto a new open interest: the model builds a new value.
- A failed strip update may leave its grid partly moved in the program; the object's contract says nothing about its state after an error.
- Settlement by series and the cumulative claim allocation of the writer sleeve.
- EarnFundObjects.Fund.Roll: the governance parameters that only gate other instructions are not part of the ledger object.
- RouteLoop.OrdinaryStage: the ordinary cursor moves when the bin is filled instead of at the end of the round; nothing reads it in between.
- RouteQuote.QuoteValidated: which arithmetic error a route meets is that of its specification, not characterised further.
- ProposalMethods.EncodeProposal: fewer than 2^64 fills and potentials, as any vector in memory has.
- EarnFundInvariant.EveryRunRolls: a condition under which a roll succeeds, not every ledger on which it does.
- Proposal arcs are modelled by their identifiers; price, capacity and rank of an arc play no part in the codec.
