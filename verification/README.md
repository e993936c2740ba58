# The vested parimutuel, its ledgers and its gate

Hunch settles markets with a vested parimutuel: a stake on one outcome is accepted as far as the
books of the other outcomes have room, vests into each of them through an accumulator, and is paid
its principal plus everything that vested into its own book afterwards. This project models the
mechanism as the repository computes it off chain, and the ledgers, stores and readers around it,
and proves what they promise over every run.

| files | what they model |
|---|---|
| `Numbers`, `Quotients` | fixed-point arithmetic, the unbounded sentinel 2^256 - 1, truncating division |
| `VestedWorld`, `FixtureWorld` | the settlement state machine, as functions of the world and as records updated in place |
| `VestedReplay`, `Solvency`, `Claims`, `Claimable`, `Payments`, `ReachableBooks`, `Leverage`, `Logarithms`, `Budgets` | what every run of it keeps |
| `Entries`, `Ticks`, `Settlements`, `ClaimLists` | what each step does, told from the state it finds and without the functions that do it |
| `Conservation`, `Backing`, `Floors`, `Edges` | exactly when its promises hold, and runs that break them |
| `Rationing`, `Vintages`, `Quote`, `StaleQuotes` | joint rationing of a vintage, and the client's quote of it |
| `Tallies`, `VenueLedger`, `VenueAgreement`, `VenueIndex`, `VenueRuns`, `VenueReports`, `VenueHeads` | the venue index against the recomputation over its positions |
| `VenueHistory`, `VenueEarnings`, `VenueOpenings` | and its positions, wallets and vintages against the events alone |
| `Text`, `Sorting`, `BookKeys`, `BookStore`, `BookRuns`, `BookDeltas` | books rebuilt from logs, and the rows read off their store |
| `TierStorage`, `TierRuns`, `Admission`, `Verifier`, `Verdicts` | spent nonces, window counters, the allowance and the proof verifier |
| `Siwe`, `SiweRoundTrip`, `SiweForms` | ERC-4361 messages, printed and read back |
| `Registries`, `RegistryRuns`, `RegistryDays`, `RegistryResponses`, `RegistryHistory` | the ERC-8004 reputation and validation aggregates |
| `Policy`, `Decisions` | the agent's decision, and that the world fills it |

Objects that update themselves in place are classes (`FixtureWorld`, `VenueIndex`,
`InMemoryTierStorage`, `RegistryIndex`). Each method is tied to a function of the old state, and
the theorems are proved about those functions over arbitrary runs. Amounts are unbounded integers;
accumulators, floors and saturating subtractions are written out as the code has them.

How the model reads the code, where a reader could expect otherwise:

- Events of the venue index carry the number of their transaction instead of its hash; only
  equality with the creating transaction and chain order are used. Contract reads are inputs that
  may be missing; those present accept no more than was offered.
- The wallet credited with an offer and with an acceptance is kept beside each position as a
  plain record of the run; the index's totals are compared with it.
- A clock reading is a parameter. The nonce and counter stores are insertion-ordered maps, so the
  sweep visits what the code visits.
- Signature recovery, the registry lookup, URI matching and date reading are answers given to the
  verifier; the theorems hold whatever they answer.
- The public documentation says payouts sum to the accepted pool exactly (README.md:218). The code
  floors each division, so that is false: `Edges.RoundingLeavesResidue` leaves a unit of a pool of
  four unpaid. What holds is `Solvency.RunConserves`, which says to the unit what is left, and
  `Conservation.RunPaysExactlyIff`: nothing is left if and only if no division has a remainder.
- Solvency and the floor are promised without conditions and the code checks neither the sign of
  an offer nor its outcome before vesting it. `Edges.MissingOutcomeOverpays` and
  `Edges.NegativeOfferOverpays` are runs that claim more than was accepted,
  `Edges.NegativeOfferBreaksFloor` an entry that lowers a position below its principal.
  `Backing` reckons entry by entry what such runs take out of the backing of each book, and when
  that leaves the payouts covered; `Floors` says exactly which entries lower a floor.
- A store's comment says a key it did not write is never read (substreams/src/keys.rs:82-83);
  `BookKeys.ParsedIsWrittenIff` and `BookKeys.SignedKeyIsRead` say which others are.

## Model

| member | source | states |
|---|---|---|
| VestedWorld.AcceptableIsGreatest | agent/src/research/fixture-world.ts:103-119 | an amount fits an entry exactly when it is at most the offer and at most the headroom of every bounded opposing book; the accepted amount is the greatest such |
| FixtureWorlds.WorldBook.HeadroomOf | agent/src/research/fixture-world.ts:103-106 | capacity less vested, not below zero, or the sentinel when capacity is unbounded |
| FixtureWorlds.WorldMarket.AcceptableOn | agent/src/research/fixture-world.ts:109-119 | the loop over books computes the greatest amount that fits |
| FixtureWorlds.WorldMarket.VestInto | agent/src/research/fixture-world.ts:129-134 | the accepted stake vests into every book but its own, in place, and moves nothing else |
| FixtureWorlds.WorldMarket.Book | agent/src/research/fixture-world.ts:156-160 | the own book grows by the accepted stake and the capacity it brings; the other books stay |
| FixtureWorlds.WorldMarket.Shares | agent/src/research/fixture-world.ts:182-185 | a tick's split, every share taken from the books as they stood before its arrivals |
| FixtureWorlds.FixtureWorld.Find | agent/src/research/fixture-world.ts:98-100 | the first market with an id, or none exactly when no market has it |
| FixtureWorlds.FixtureWorld.Enter | agent/src/research/fixture-world.ts:125-162 | one entry turns the whole world into the world one entry later, errors included, and keeps the ledger of positions consistent |
| Entries.EntryRecords | agent/src/research/fixture-world.ts:125-162 | an entry accepts the greatest amount within the offer and the room of every other book and refuses the rest; its position records owner, amounts, number and its own book's accumulator; that book grows, every other book of the market takes the vesting, and nothing else in the world changes |
| Entries.RunNumbers | agent/src/research/fixture-world.ts:137-155 | over any run, failed entries included, positions are numbered from one in the order they were taken, each alone in its vintage |
| FixtureWorlds.FixtureWorld.Tick | agent/src/research/fixture-world.ts:169-190 | a tick is the drift and the arrivals of each open market in list order, each market's shares fixed before its arrivals |
| Ticks.TickBrings | agent/src/research/fixture-world.ts:169-190 | a tick enters every open market on each outcome whose share is above zero, once, in outcome order, in the crowd's name; each share is the flow in proportion to the principal the tick found, short of it by less than a unit and a billionth of the flow; of a market only price and books change |
| Ticks.TickInOrder | agent/src/research/fixture-world.ts:169-190 | the crowd's entries of a tick come market by market in list order |
| Ticks.PriceDrifts | agent/src/research/fixture-world.ts:343-348 | an open market's price moves by the price times its drift without the fraction, up for a drift above zero and down for one below; no other price moves |
| Settlements.ScaledIs | agent/src/domain/units.ts:67-71 | scaling is the value times the fraction held to the nearest billionth, without the fractional unit, nothing for a fraction of zero or less |
| Settlements.ScaledIsNear | agent/src/domain/units.ts:67-71 | a scaled amount is never negative and is the product to within a unit and half of the fraction's ninth decimal |
| FixtureWorlds.FixtureWorld.SettleDue | agent/src/research/fixture-world.ts:196-206 | exactly the open markets past their time are resolved, by the reading against the strike, and named in list order |
| Settlements.WinnerByReading | agent/src/research/fixture-world.ts:196-206 | settling resolves exactly the open markets whose time has come; outcome 0 wins when the price is at or above the strike under direction 0 or below it under any other, else outcome 1; nothing else of any market changes, and no position |
| Settlements.NamedInOrder | agent/src/research/fixture-world.ts:196-206 | the ids named are those of exactly the markets that settled, in list order |
| FixtureWorlds.FixtureWorld.MarkClaimed | agent/src/research/fixture-world.ts:253-256 | flags one position and touches nothing else; an unknown number changes nothing |
| Entries.ClaimedIff | agent/src/research/fixture-world.ts:253-256 | over any run a position is claimed if and only if some step claimed it once it was there |
| FixtureWorlds.FixtureWorld.PayoutOf | agent/src/research/fixture-world.ts:218-226 | what a claim pays in each status, nothing for a position that does not exist |
| ClaimLists.PayoutSettles | agent/src/research/fixture-world.ts:218-226 | a payout is nothing while open, the stake when voided, and when resolved for the position's outcome the stake and its part of the gain since entry, without the fraction, else nothing |
| FixtureWorlds.FixtureWorld.VestingEarnedBy | agent/src/research/fixture-world.ts:208-215 | what has vested to a position since it entered: what `Floors.WorthIsVested` proves its payout holds beyond its principal |
| FixtureWorlds.FixtureWorld.ClaimsFor | agent/src/research/fixture-world.ts:228-251 | the claims of a wallet, position by position in the order they were opened |
| ClaimLists.ClaimableIff | agent/src/research/fixture-world.ts:228-251 | a wallet is given a claim if and only if its position is the wallet's up to case, unclaimed, in a market no longer open, and has a payout or a refund, which are its settlement and its refused remainder; numbers strictly increase |
| ClaimLists.ClaimsGiveAllDue | agent/src/research/fixture-world.ts:228-251 | wallets listed once each that own every position are together given exactly what a market owes its unclaimed positions |
| Text.LowerIsCaseBlind | agent/src/research/fixture-world.ts:231 | two addresses lower to one exactly when they differ only in the case of their letters |
| VestedReplay.RunTracks | agent/src/research/fixture-world.ts:125-206 | in every state reached by entries, ticks, settlements and claims the books are the replay of the list of positions alone, and every position was accepted as the books then stood |
| VestedReplay.RunExtends | agent/src/research/fixture-world.ts:125-162 | no step of any run, whatever it asks for, removes an earlier position, alters its stake or entry accumulator, or unclaims it |
| Solvency.RunIsSolvent | agent/src/research/fixture-world.ts:217-251 | over every run of offers of zero or more on outcomes that exist, whichever outcome wins and whatever the status, payouts of a market are at most its accepted stake, and payouts plus refunds at most what was offered |
| Backing.RunTakesFromSpare | agent/src/research/fixture-world.ts:125-190 | over any run, from any world, what backs a book falls by exactly what the entries take, each reckoned on the books it finds: the crowd's, those on missing outcomes and those of negative amounts included |
| Backing.RunIsCoveredIff | agent/src/research/fixture-world.ts:217-226 | in any run whatever was entered, the positions on an outcome can be paid out of what was accepted if and only if what the entries took is within what vested to the opening principal and what flooring the payouts drops |
| Backing.RunIsSolventIff | agent/src/research/fixture-world.ts:217-226 | so a resolved market claims at most what it accepted if and only if that holds of its winner |
| Backing.CleanRunTakes | agent/src/research/fixture-world.ts:129-134 | a run of offers of zero or more on outcomes that exist takes nothing, and leaves over exactly what its divisions dropped |
| Backing.EntryMovesSpare | agent/src/research/fixture-world.ts:125-162 | what any entry, from any world, takes out of the backing of each book: what it vests less what it brings, nothing for its own book |
| Backing.NextEntryKeepsBackingIff | agent/src/research/fixture-world.ts:125-162 | the next entry keeps every book's vesting backed if and only if each book it vests into affords it: always for a recorded offer of zero or more, by its remainder for a negative one, by all it vests for one on a missing outcome |
| Backing.NextEntryIsCoveredIff | agent/src/research/fixture-world.ts:217-226 | the next entry leaves a winner's payouts within what was accepted if and only if its excess is within three amounts known before it is made |
| Edges.MissingOutcomeOverpays | agent/src/research/fixture-world.ts:129-136 | a run whose one entry on a missing outcome fails, leaves no position, and makes 51 claimable of 1 accepted |
| Edges.NegativeOfferOverpays | agent/src/research/fixture-world.ts:118-134 | a run whose one negative offer makes 500 claimable of nothing accepted |
| Solvency.RunConserves | README.md:218 | over any run and for every winner, what is left of the pool is exactly what the divisions dropped: vesting, paying the positions, paying the opening principal |
| Conservation.RunPaysExactlyIff | README.md:218 | the pool is paid out to the last unit if and only if every opposing entry divided evenly and every holder's payout comes to whole units |
| Edges.RoundingLeavesResidue | README.md:218 | a run of one entry that leaves a unit of the pool unpaid |
| Solvency.RunResidue | README.md:226-230 | the pool left by flooring is never negative and below one unit a winner plus the sum of s_i * m_i / SCALE, the opening principal counted as a winner |
| Claims.WorthOverTime | agent/src/research/fixture-world.ts:208-226 | over any continuation of any run of offers of zero or more on outcomes that exist a position's worth if it wins never falls, is unchanged unless opposing stake is accepted meanwhile, and is exactly the principal until then |
| Floors.EntryKeepsAccsIff | agent/src/research/fixture-world.ts:118-134 | no accumulator falls at an entry if and only if the offer is zero or more, or too small to take a unit back from any book it opposes |
| Floors.EntryKeepsWorthIff | agent/src/research/fixture-world.ts:218-226 | every stake that can stand on any book keeps its worth at an entry if and only if the same holds |
| Floors.NeverFallsIff | README.md:219 | no step of a run ever lowers an accumulator if and only if each of its entries is such as it finds the books; entries of zero or more always are, on whatever outcomes |
| Floors.FloorOverTime | README.md:219 | over any continuation of such a run a position is never worth less than it was if it wins, nor than its principal |
| Floors.WorthIsVested | agent/src/research/fixture-world.ts:208-226 | a payout is the principal and what has vested, unit for unit |
| Claims.EarlierIsPaidMore | agent/src/research/fixture-world.ts:150-154 | of two equal stakes on one outcome the earlier is paid at least as much |
| Claims.SettledIsFinal | agent/src/research/fixture-world.ts:196-206 | a settled market keeps status and winner forever, and everything else too unless it is entered by name |
| Claimables.ClaimsAreCovered | agent/src/research/fixture-world.ts:228-251 | over any run, whatever one wallet may claim of a market comes to no more than was offered in it |
| Payments.RunPaysWithin | agent/src/research/fixture-world.ts:217-256 | over any run the first claims of a market's positions, each paid as the market stood when it was made, come to at most what was accepted, and with their refused remainders to at most what was offered |
| Claimables.ClaimedOnce | agent/src/research/fixture-world.ts:253-256 | once claimed a position is not claimable in any state the run goes on to reach, and claiming it changes no other claim |
| ReachableBooks.RunConservesPool | agent/src/research/fixture-world.ts:129-160 | every reachable book keeps its principal positive, the pool is the opening pool plus what was accepted, and what vested into a book is what the other books grew by |
| ReachableBooks.RunCountsHolders | agent/src/research/fixture-world.ts:155-159 | over any run a book's holders are those it opened with and one for each position on it accepted for more than nothing |
| ReachableBooks.RunMatchesCapacity | agent/src/research/fixture-world.ts:333-341 | below the sentinel a reachable bounded book has capacity kappa times principal and no more vested than that; an unbounded market stays unbounded |
| ReachableBooks.RunStaysWithin | agent/src/research/fixtures.ts:82-113 | whatever capacities were loaded, runs of offers of zero or more on any outcomes vest no more into a book than its capacity while that is below the sentinel |
| ReachableBooks.EntryConservesIff | agent/src/research/fixture-world.ts:125-160 | the conservation of one entry, of any amount on any outcome, holds if and only if its outcome has a book and nothing is taken back from another, nothing was accepted, or there are no books |
| ReachableBooks.CapacityKeptIff | agent/src/research/fixture-world.ts:333-341 | capacity stays kappa times principal if and only if nothing is accepted, kappa is zero, or neither summand reads as the sentinel |
| Leverage.BoundedLeverage | agent/src/research/fixture-world.ts:129-134 | over any run a position's gain per unit is at most SCALE * kappa times one plus the sum of (P_next - P_prev) / P_next over later growth of its own book |
| Logarithms.LeverageWithinLog | README.md:222 | over any run whose budget is below the sentinel a position is paid at most 1 + kappa * (1 + x) times its stake, x at most the logarithm of its book's growth since |
| Logarithms.GrowthWithinLog | README.md:222 | the sum of (P_next - P_prev) / P_next over a book's growth is at most the logarithm of the whole growth, as the limit of (1 + x/n)^n |
| Budgets.RunOffers | agent/src/research/fixture-world.ts:169-190 | over any run a market is offered at most what its entries ask and its flow for every tick |
| Budgets.StaysBelowSentinel | agent/src/research/fixture-world.ts:333-341 | a condition known before the run, on the opening pool and that budget, keeps every capacity below the sentinel |
| Leverage.BoundedMultiple | README.md:222 | a position whose book has at most doubled d times since is paid at most 1 + kappa * (1 + d) times its stake |
| Leverage.GrowthInDoublings | README.md:222 | that sum is at most d for a book that grew by at most 2^d |
| Edges.NegativeOfferBreaksFloor | agent/src/research/fixture-world.ts:118-134 | a concrete negative offer that takes a position below its principal |
| Edges.RunIgnoresStatus | agent/src/research/fixture-world.ts:125-162 | over any run of entries by name and claims, a market's status and winner make no difference to anything but themselves |
| Edges.ShareIsExact | agent/src/domain/units.ts:67-71 | a ratio scaled back up is the double floor flow * (p * 10^9 / pool) / 10^9, with nothing lost to rounding |
| Edges.SplitWithinFlow | agent/src/research/fixture-world.ts:176-188 | a tick's arrivals are never negative and never sum to more than the tick's flow |
| Rationing.AcceptsIsGreatest | packages/agentkit-tier/src/tiers.ts:196-209 | an amount is acceptable exactly when it is at most the stake and at most its pro-rata part of every binding book, stated without division |
| Rationing.EffectiveAcceptance | packages/agentkit-tier/src/tiers.ts:186-214 | cap, rationing, refund and limiting constraint of one offer, refusing exactly the negative inputs the code refuses |
| Rationing.AcceptsMonotone | packages/agentkit-tier/src/tiers.ts:196-209 | offering more is never accepted less |
| Rationing.AcceptsAntitone | packages/agentkit-tier/src/tiers.ts:196-209 | more demand from others is never accepted more |
| Rationing.AcceptsWithinHeadroom | packages/agentkit-tier/src/tiers.ts:196-209 | no more is accepted than the least bounded headroom |
| Rationing.AcceptedInFullIff | packages/agentkit-tier/src/tiers.ts:196-209 | a stake is accepted whole if and only if no bounded book's demand including it exceeds its headroom |
| Rationing.SplittingGainsNothing | packages/agentkit-tier/src/tiers.ts:196-209 | splitting an offer into entries of one vintage on one outcome never raises what is accepted of it |
| Vintages.VintageWithinHeadroom | packages/agentkit-tier/src/tiers.ts:157-209 | for any list of entries over any number of books, rationing each against the others fills no bounded book beyond its headroom |
| Vintages.VintageFillsHeadroom | packages/agentkit-tier/src/tiers.ts:157-209 | with exactly one overfull book and k entries against it, less than k of its headroom stays unused |
| Quote.DecodeOpenVintage | packages/client/src/decode.ts:208-236 | offers per outcome are believed only when the entries listed are all of them, by count and by sum |
| Quote.DemandRebuilt | packages/client/src/decode.ts:243-246 | the vintage total less an outcome's own offers is the sum of the entries on the other outcomes |
| Quote.DecodeMarket | packages/client/src/decode.ts:248-304 | the decoded market is the answered books, each with the demand against it and no capacity exactly when kappa or the book is unbounded, sorted by outcome |
| Quote.DecodedBooks | packages/client/src/decode.ts:303 | decoding keeps every answered book, in outcome order, those of one outcome in the order they came |
| Quote.OutcomeHeadroom | packages/client/src/mechanics.ts:60-100 | everything reported about the binding book comes from the one opposing book with the least room, the first such in order |
| Quote.QuoteIsExact | packages/client/src/mechanics.ts:29-100 | a stake is accepted whole by the rationing rule if and only if it is within every bounded opposing allowance |
| Quote.PromiseIsExact | packages/client/src/mechanics.ts:60-100 | for a vintage read whole with an opposing book, a stake is accepted whole if and only if it is at most maxFullyAccepted, and always when that is null |
| Quote.QuoteFromAnswer | packages/client/src/decode.ts:224-304 | from the raw answer to the quote: with the vintage read whole and open in the head block, a stake is accepted whole against everything offered if and only if it is at most maxFullyAccepted, and always when that is null |
| StaleQuotes.StaleQuoteIsExact | packages/client/src/mechanics.ts:28-100 | with no vintage open in the head block every opposing book allows its whole headroom, and a stake is accepted whole, alone in its vintage, if and only if it is at most maxFullyAccepted, and always when that is null |
| Quote.BindsLowest | packages/client/src/mechanics.ts:77-91 | of the books with the least allowance the one with the lowest outcome is named |
| Quote.PreviewsAgree | packages/client/src/mechanics.ts:110-122 | client, index and settler compute one payout while the entry accumulator is not ahead of the book's |
| Quote.PreviewsClamp | subgraph/src/shared.ts:360-372 | with the entry accumulator ahead both previews promise the principal and the settler's formula falls below it |
| VenueIndexes.VenueIndex.GetOrCreateAgent | subgraph/src/shared.ts:67-85 | a wallet not listed is listed with zero totals and counted; a listed one is left alone |
| VenueIndexes.VenueIndex.AttachAgentToMarket | subgraph/src/shared.ts:90-101 | one more position on the link; a new link counts one more market |
| VenueIndexes.VenueIndex.DetachAgentFromMarket | subgraph/src/shared.ts:103-115 | one position fewer on the link; the last one removes it and its market from the count |
| VenueIndexes.VenueIndex.CountUniqueAgent | subgraph/src/shared.ts:326-337 | one more entry of a wallet in a day; a first one counts the wallet |
| VenueIndexes.VenueIndex.UncountUniqueAgent | subgraph/src/shared.ts:339-351 | one entry of a wallet fewer; the last one removes the wallet from the day's count |
| VenueIndexes.VenueIndex.BumpBookPositionCount | subgraph/src/shared.ts:252-274 | one more position on a book, met before or not |
| VenueIndexes.VenueIndex.Enter | subgraph/src/shared.ts:406-455 | the whole bookkeeping of an entry as one change of the stored state |
| VenueIndexes.VenueIndex.Accept | subgraph/src/shared.ts:459-487 | an acceptance, credited to the present owner and to the day of the offer |
| VenueIndexes.VenueIndex.Transfer | subgraph/src/shared.ts:504-538 | a transfer moves the link; inside the opening transaction the stake and the day's credit move too |
| VenueIndexes.VenueIndex.DropConduitAgent | subgraph/src/shared.ts:545-555 | a wallet with nothing to its name and nothing in its hands is removed |
| VenueIndexes.VenueIndex.Settle | subgraph/src/shared.ts:574-606 | payout accrues whenever it is positive, the principal comes off once |
| VenueIndexes.VenueIndex.OnEntered | subgraph/src/vested.ts:102-140 | a seed leg is final at once, any other entry waits in its vintage |
| VenueIndexes.VenueIndex.OnVintageFinalized | subgraph/src/vested.ts:142-174 | the loop over waiting entries, those that cannot be read skipped, and the vintage closed |
| VenueIndexes.VenueIndex.OnClaimed | subgraph/src/vested.ts:194-224 | payout, or no refund, or the settler's own flag makes a claim settle |
| VenueIndexes.VenueIndex.OnPositionTransferred | subgraph/src/vested.ts:237-247 | an unknown position changes nothing |
| VenueRuns.EntryKeeps | subgraph/src/shared.ts:406-455 | an entry keeps every total, link, count and bucket equal to its recomputation |
| VenueRuns.AcceptanceKeeps | subgraph/src/shared.ts:459-487 | so does an acceptance that becomes known |
| VenueRuns.SettlementKeeps | subgraph/src/shared.ts:574-606 | so does a settlement |
| VenueRuns.SaleKeeps | subgraph/src/shared.ts:516-522 | so does a sale in a later transaction |
| VenueRuns.HandOverKeeps | subgraph/src/shared.ts:516-535 | so does a hand-over inside the opening transaction |
| VenueRuns.ConduitIsNew | subgraph/src/shared.ts:545-555 | a wallet is dropped exactly when all its totals are zero and it owns no position |
| VenueRuns.DropKeeps | subgraph/src/shared.ts:545-555 | dropping keeps agreement and leaves no position without its owner |
| VenueRuns.FinalizationKeeps | subgraph/src/vested.ts:142-174 | finalizing a vintage, entry by entry, keeps agreement |
| VenueRuns.EventKeeps | subgraph/src/vested.ts:94-247 | every event that can happen keeps the whole index in agreement |
| VenueRuns.RunAgrees | subgraph/src/vested.ts:94-247 | so does every run of them |
| VenueReports.LedgerConserves | subgraph/src/shared.ts:406-606 | after any run the agents' totals sum to the positions' offers, finalized acceptances, payouts and payouts less claimed principal; the protocol's totals are the same sums; every owner is listed |
| VenueReports.LinksCount | subgraph/src/shared.ts:87-115 | a link counts exactly the positions a wallet holds in a market and exists only then; marketsEntered is the number of markets it holds positions in |
| VenueReports.DaysBalance | subgraph/src/shared.ts:303-351 | a day's offered is accepted plus rationed plus still pending, each the sum over its positions; uniqueAgents is the number of distinct credited wallets |
| VenueReports.HandOverIsExact | subgraph/src/shared.ts:520-537 | no saturating subtraction of a hand-over is ever cut short |
| VenueReports.VintagesBalance | subgraph/src/vested.ts:114-167 | a vintage's totals are its positions'; once finalized the rest is rationed and nothing waits |
| VenueHistory.PositionTells | subgraph/src/vested.ts:102-247 | after any run a position is what its events made of it: settled if and only if one of its claims paid something, refunded nothing or was of a position the settler calls claimed; its refund withdrawn if and only if some claim refunded or a seed reading said so; paid what its claims paid; owned by the last it was transferred to, its stake credited to the last in its opening transaction; accepted as first read |
| VenueHistory.ThereIff | subgraph/src/shared.ts:406-455 | a position is there if and only if it was entered |
| VenueEarnings.EarnedExactly | subgraph/src/shared.ts:574-606 | after any run a wallet's totalClaimed is what was paid on positions while it owned them, and its realizedPnl that less the principal of those that settled in its hands, once each |
| VenueEarnings.StakedExactly | subgraph/src/shared.ts:504-538 | and its totalOffered and totalAccepted are the sums over the positions credited to it |
| VenueEarnings.ConduitsGo | subgraph/src/shared.ts:520-555 | a wallet that hands a position on in its opening transaction is delisted if and only if that leaves it with no totals and no position |
| VenueOpenings.OpeningsTold | subgraph/src/vested.ts:94-172 | after any run the index knows the markets and vintages its events name, a vintage is closed if and only if it was finalized after an entry or is an entered seed vintage, and a market's open vintage is the one entered last until a vintage of the market is finalized |
| VenueHeads.HeadsAreCounted | subgraph/src/shared.ts:252-274 | over any run every book counts exactly the positions taken on it |
| BookKeys.KeyRoundTrip | substreams/src/keys.rs:72-104 | a key reads back as its book and field if and only if the settler holds no colon, and is otherwise rejected |
| BookKeys.ParsedIsCanonical | substreams/src/keys.rs:84-104 | whatever parses names a book that fits the key's widths and whose own key reads back the same |
| BookKeys.ParsedIsWrittenIff | substreams/src/keys.rs:82-104 | a key that parses is one this module writes, for the book it names, if and only if both its numbers are plain decimals |
| BookKeys.SignedKeyIsRead | substreams/src/keys.rs:82-104 | a key with a plus sign, which is never written, is read all the same |
| BookKeys.KeysDiffer | substreams/src/keys.rs:72-80 | different books or fields never share a key |
| BookStores.PushStake | substreams/src/books.rs:147-236 | the writes of one stake or refund, pushed by the loop over outcomes |
| BookStores.CollectAdds | substreams/src/books.rs:88-141 | the writes of a block: entries, then refunds, then the sort |
| BookStores.SortedInOrder | substreams/src/books.rs:139-140 | a block's writes come out in chain order, every one of them |
| BookStores.SortedStable | substreams/src/books.rs:139-140 | and those of one log in the order they were made |
| BookStores.SortedKeeps | substreams/src/books.rs:139-140 | sorting changes no total |
| BookStores.AppliedValue | substreams/src/lib.rs:114-124 | a book's field in the additive store grows by exactly the writes to it |
| BookRuns.StakeTally | substreams/src/books.rs:154-193 | a stake moves its own principal and capacity and every other book's vested total, and nothing else |
| BookRuns.StakeElsewhere | substreams/src/books.rs:147-236 | no stake moves a book of another market |
| BookRuns.FeedMatches | substreams/src/books.rs:88-141 | a block keeps the market's books matched with its positions |
| BookRuns.BooksConverge | substreams/src/books.rs:15-28 | in every reached state V_w is the principal of the other books, C_w is kappa * P_w, and P_w is what was accepted plus exactly what was refused and not yet withdrawn |
| BookRuns.ExactOnceWithdrawn | substreams/src/books.rs:25-33 | P_w is exact if and only if every refused remainder on w has been withdrawn |
| BookDeltas.CollectRows | substreams/src/deltas.rs:35-116 | the rows of a block, from its deltas, by the two loops |
| BookDeltas.MovementsAreWrites | substreams/src/deltas.rs:45-58 | reading the keys back out of the store's deltas recovers the writes |
| BookDeltas.MovedSums | substreams/src/deltas.rs:43-58 | a book's movement is the sum of the writes to it, and only books written to have one |
| BookDeltas.RowIsDifference | substreams/src/deltas.rs:61-113 | a row snapshots its book after the block, its deltas are the difference from before, and capacity and headroom are reported exactly when the market is known, bounded and not classic |
| BookDeltas.RowsInOrder | substreams/src/deltas.rs:41-61 | rows come in strict book order, one for each book written to |
| BookDeltas.LessIs | substreams/src/keys.rs:46-51 | books are ordered by settler as dictionaries have it, then by market number, then by outcome |
| BookDeltas.RowReportsRoom | substreams/src/deltas.rs:87-94 | over any run a row's headroom is kappa times the rebuilt principal less the principal of the other outcomes, not below zero |
| TierStorages.InMemoryTierStorage.ConsumeNonce | packages/agentkit-tier/src/storage.ts:81-88 | answer and new state of one nonce, after one batch of sweeping |
| TierStorages.InMemoryTierStorage.IncrementWindow | packages/agentkit-tier/src/storage.ts:90-97 | answer and new state of one count |
| TierStorages.InMemoryTierStorage.SweepStep | packages/agentkit-tier/src/storage.ts:104-115 | both budgeted sweep loops |
| TierStorages.SweptLive | packages/agentkit-tier/src/storage.ts:104-115 | sweeping, whatever the batch and the order of entries, changes nothing a key answers from then on |
| TierStorages.SweptExactly | packages/agentkit-tier/src/storage.ts:104-115 | a sweep leaves no entry whose time is up among the first batch, and every other entry, in order |
| TierRuns.AnswersLikeUnswept | packages/agentkit-tier/src/storage.ts:81-115 | under a clock that never goes back every call of every run is answered as by a store that keeps everything |
| TierRuns.ReplayedExactly | packages/agentkit-tier/src/storage.ts:81-88 | a nonce is refused if and only if an earlier call spent it and it has not lapsed |
| TierRuns.CountedExactly | packages/agentkit-tier/src/storage.ts:90-97 | the calls of one window are counted 1, 2, 3 and so on despite sweeping |
| TierRuns.AllowedExactly | packages/agentkit-tier/src/ratelimit.ts:81-92 | of a window's calls the first `limit` are within the limit and no other |
| Admission.NonceKeysDiffer | packages/agentkit-tier/src/storage.ts:119-121 | nonces of different wallets or chains never share a key |
| Admission.RateKeysDiffer | packages/agentkit-tier/src/storage.ts:123-125 | windows of different subjects or starts never share a counter, whatever the subject contains |
| Admission.EnforceRateLimit | packages/agentkit-tier/src/ratelimit.ts:57-92 | the decision on a request is that of the count the store answers; with the store out of reach it is let through uncounted and marked degraded |
| Admission.RetryFindsNextWindow | packages/agentkit-tier/src/ratelimit.ts:81-92 | a refused request is told to wait, for no second longer than the next window takes to open |
| Admission.RemainderIsExact | packages/agentkit-tier/src/ratelimit.ts:53-92 | used and remaining come to the limit while requests are allowed and nothing remains once they are not; the window named holds the moment; with the store out of reach the request is allowed, the whole limit left |
| Admission.WindowCountsExactly | packages/agentkit-tier/src/ratelimit.ts:53-81 | a request is told exactly how many its window has seen, itself included, so it is allowed if and only if fewer than `limit` came before |
| Admission.RemainingCountsDown | packages/agentkit-tier/src/ratelimit.ts:81-92 | over any run the first `limit` requests of a window are told one fewer each time, the others none |
| Admission.AtMostTwiceTheLimit | packages/agentkit-tier/src/ratelimit.ts:53-92 | in any stretch as long as a window at most twice the limit is allowed |
| Verifier.VerifyNormalized | packages/agentkit-tier/src/verify.ts:177-353 | the checks in their order with the nonce spent last, as one step on the store |
| Verifier.HumanBackedExactly | packages/agentkit-tier/src/verify.ts:280-334 | a proof is human-backed if and only if every other check passes and its nonce is not spent beyond this moment; a proof that fails spends nothing |
| Verdicts.HumanBackedIff | packages/agentkit-tier/src/verify.ts:177-353 | in any run a proof is human-backed if and only if it is read, is of version 1, for this domain, on an accepted chain, of a fitting URI, with readable times, in force now, signed by its address, registered to a person and not revoked, the store is up, and no earlier visit spent its nonce for longer than until now |
| Verdicts.FailsForFirst | packages/agentkit-tier/src/verify.ts:196-333 | a proof that fails a check is refused for the first of the twenty-one it fails, and leaves the store alone |
| Verdicts.UnreadIsRefused | packages/agentkit-tier/src/verify.ts:181-194 | nothing presented and nothing readable are refused for what they are, and spend nothing |
| Verdicts.CompleteIsGraded | packages/agentkit-tier/src/verify.ts:315-353 | a proof that passes every check spends its chain, wallet and nonce until it expires and is graded by the store's answer |
| Verifier.ProofUsedOnce | packages/agentkit-tier/src/verify.ts:280-334 | one signed message is human-backed at most once over any run, whatever else the store is asked |
| Siwe.Format | packages/agentkit-tier/src/siwe.ts:61-81 | the message printed, optional fields and resources in order |
| Siwe.Parse | packages/agentkit-tier/src/siwe.ts:98-177 | the message read by the search for the first field and the loop over lines, with every failure the code distinguishes |
| SiweRoundTrip.ReadsBackLines | packages/agentkit-tier/src/siwe.ts:98-99 | a printed message comes back as the lines it was printed from |
| SiweRoundTrip.ReadsField | packages/agentkit-tier/src/siwe.ts:133-142 | a field line sets its field, and a second one of the same name is an error |
| SiweRoundTrip.StatementReads | packages/agentkit-tier/src/siwe.ts:114-119 | a statement of any number of lines comes back if and only if none of them is blank |
| SiweRoundTrip.SecondUriFails | packages/agentkit-tier/src/siwe.ts:137-142 | once a URI was read another one is an error wherever it comes |
| SiweRoundTrip.RoundTripsExactly | packages/agentkit-tier/src/siwe.ts:61-177 | a printed message reads back as exactly the input's fields if and only if the domain and the mandatory fields are non-empty, the address is one, and no statement line is blank or begins with the URI field's name |
| SiweForms.PrintsInOrder | packages/agentkit-tier/src/siwe.ts:61-81 | a message is printed character for character as ERC-4361 lays it out: domain, address, statement, five fields, three optional ones, resources |
| SiweForms.CrLfReadsAlike | packages/agentkit-tier/src/siwe.ts:98-99 | a message reads alike whether its lines end in a line feed or a carriage return and line feed |
| SiweForms.CrLfRoundTrips | packages/agentkit-tier/src/siwe.ts:61-177 | a printed message whose line endings were changed on the way reads back exactly when it did before |
| SiweForms.ReadsOnlyWritten | packages/agentkit-tier/src/siwe.ts:98-177 | whatever message is read, its domain, address, every field and every resource stand in a line of it, and the mandatory ones are not empty |
| SiweForms.AddressIs | packages/agentkit-tier/src/siwe.ts:23-32 | an address is 0x and forty hexadecimal digits in either case |
| SiweForms.NamesFirstMissing | packages/agentkit-tier/src/siwe.ts:145-158 | a message is refused for the first of the five mandatory fields that is missing or empty, and for none only if all are there |
| Registries.Exponent | subgraph-erc8004-arc/src/helpers.ts:215-222 | the divisor built one multiplication at a time is the power of ten |
| Registries.ScaleIsUniform | subgraph-erc8004-arc/src/helpers.ts:224-234 | one score posted with k more decimals is stored as one score if and only if both fit the eighteen kept, the score is zero, or k is |
| Registries.RegistryIndex.OnNewFeedback | subgraph-erc8004-arc/src/reputation.ts:30-87 | the stored state after a new entry, and the day row it counts in |
| Registries.RegistryIndex.OnFeedbackRevoked | subgraph-erc8004-arc/src/reputation.ts:94-131 | the stored state after a revocation and the day row it counts in; of an unknown or revoked entry, nothing but the agent met |
| Registries.RegistryIndex.OnResponseAppended | subgraph-erc8004-arc/src/reputation.ts:133-161 | the stored state and the response's own row after a response to an entry; one to an entry never seen is dropped |
| Registries.RegistryIndex.OnValidationRequest | subgraph-erc8004-arc/src/validation.ts:27-60 | the stored state after a request, and the day row it counts in |
| Registries.RegistryIndex.OnValidationResponse | subgraph-erc8004-arc/src/validation.ts:62-131 | the stored state after a response, a repeat swapping the old value out; only a first one counts in its day row |
| Registries.RegistryIndex.OnRegistered | subgraph-erc8004-arc/src/identity.ts:40-55 | an agent met for the first time is listed and counted, and the day row counts the registration |
| RegistryRuns.NewFeedbackKeeps | subgraph-erc8004-arc/src/reputation.ts:30-87 | a new entry keeps every aggregate equal to its recomputation, agentsRated included |
| RegistryRuns.RevokedKeeps | subgraph-erc8004-arc/src/reputation.ts:94-131 | so does a revocation |
| RegistryRuns.ResponseKeeps | subgraph-erc8004-arc/src/validation.ts:62-131 | so does a response, first or repeated |
| RegistryRuns.EventKeeps | subgraph-erc8004-arc/src/reputation.ts:30-161 | so does every event the registries allow |
| RegistryRuns.AggregatesAreExact | subgraph-erc8004-arc/src/helpers.ts:112-195 | after any run the counts, sums and means of each agent, client and validator and of the registry are the recomputation over the stored rows |
| RegistryRuns.MeansAreExact | subgraph-erc8004-arc/src/helpers.ts:236-239 | after any run every mean times its count is the sum over its rows, and zero with no rows |
| RegistryHistory.FeedbackTells | subgraph-erc8004-arc/src/reputation.ts:30-161 | after any run an entry is of the agent and client it named, its score the value at its decimals, revoked if and only if it was revoked since, its responses those to it since |
| RegistryHistory.FeedbackThereIff | subgraph-erc8004-arc/src/reputation.ts:30-56 | an entry is there if and only if it was given |
| RegistryHistory.ValidationTells | subgraph-erc8004-arc/src/validation.ts:27-131 | after any run a validation is of the agent and validator its request named and holds the last response since |
| RegistryHistory.ValidationThereIff | subgraph-erc8004-arc/src/validation.ts:27-75 | a validation is there if and only if it was requested |
| RegistryHistory.AgentThereIff | subgraph-erc8004-arc/src/helpers.ts:114-141 | an agent is listed if and only if some event was about it, responses to unknown requests aside |
| RegistryRuns.TotalsSplit | subgraph-erc8004-arc/src/reputation.ts:70-82 | the registry's totals are the sums over its agents, and every entry is active or revoked |
| RegistryDays.DaysAreExact | subgraph-erc8004-arc/src/helpers.ts:197-213 | over any run a day's row counts what the events of that day add to the registry's totals, and its registrations; the days together are the totals, and none saw more agents than there are |
| RegistryDays.DaysSeeAgents | subgraph-erc8004-arc/src/helpers.ts:197-213 | a day has a row if and only if an event of that day was counted, and it says how many agents there were after the last of them |
| RegistryResponses.ResponsesAreCounted | subgraph-erc8004-arc/src/reputation.ts:133-161 | over any run the registry's count of responses is the number of their rows, and each entry's the number that answer it |
| Policy.AcceptanceHeadroom | agent/src/policy/decide.ts:94-106 | the least bounded headroom among the opposing books, or unbounded |
| Policy.CounterpartyTrust | agent/src/policy/decide.ts:119-135 | a supplied figure floored, or the principal-weighted trust of the opposing books |
| Policy.TrustIsMean | agent/src/policy/decide.ts:119-135 | trust is never below the floor nor above the greater of floor and one; unsupplied it lies between the least and the greatest trust of the opposing books |
| Policy.Choose | agent/src/policy/decide.ts:137-206 | the decision, with the best survivor found in one pass |
| Policy.EntersExactlyWhen | agent/src/policy/decide.ts:154-184 | the agent enters if and only if nothing vetoes the market and some outcome survives |
| Policy.ChoosesBest | agent/src/policy/decide.ts:180-194 | no survivor has more edge, or as much and more room, and of equals the lowest outcome is taken |
| Decisions.EntersIff | agent/src/policy/decide.ts:137-206 | the agent enters an outcome with a stake if and only if nothing keeps it out of the market and the outcome has room, at least the least edge and at least the least ticket, none such is preferred to it and it to all before it; the edge is own probability less price times trust, the stake the least of its caps, all written out from the books |
| Decisions.AbstainsFor | agent/src/policy/decide.ts:154-183 | it stays out for the first obstacle in order; with none it names the closest miss: a stake too small, else an edge too small, else no room |
| Decisions.BuysBelowOwn | agent/src/policy/decide.ts:219-246 | an agent that asks for some edge never enters an outcome at or above its own probability |
| Decisions.StakeWithinPart | agent/src/policy/decide.ts:267-284 | a stake is at most the bankroll times fraction, conviction and window left, to half of the ninth decimal |
| Decisions.StakedIs | agent/src/policy/decide.ts:267-284 | a stake is the least of four caps: a part of the bankroll, a part of the least room, the ticket, the bankroll |
| Decisions.PriceIsShare | agent/src/policy/decide.ts:83-87 | a price is the outcome's share of the principal, short of it by less than a billionth |
| Decisions.TrustIs | agent/src/policy/decide.ts:119-135 | unsupplied trust is exactly the principal-weighted mean of the other books' held trust, floored; the outer hold never binds |
| Policy.StakeWithinLimits | agent/src/policy/decide.ts:253-284 | a stake is at least the least ticket and at most the greatest ticket and the bankroll |
| Policy.StakeWithinRoom | agent/src/policy/decide.ts:267-284 | using at most all of the room, a stake is within the opposing books' room |
| Policy.ScaleShrinks | agent/src/domain/units.ts:67-71 | a fraction of at most one never scales a non-negative amount up |
| Policy.DecisionIsFilled | agent/src/research/fixture-world.ts:266-297 | whatever is decided on a current snapshot, using at most all of the room, the world accepts whole |
| Policy.FilledExactlyWhen | agent/src/policy/decide.ts:94-106 | a stake is accepted whole if and only if it is within the room the snapshot shows |

## Left out

- The Solidity settler: its code is not part of this model; what is proved is about the TypeScript and Rust that compute the same mechanism.
- Classic markets: the classic handlers of the venue index and the classic payout preview, which split a pool by stake and vest nothing.
- Market snapshots in the venue index (`applyMarketState`, `applyBook`, odds, previews written to positions): copied from contract reads, no ledger depends on them.
- Two markets under one id, or books out of outcome order: loading never makes them, so worlds are taken as loaded (agent/src/research/fixtures.ts:69-113).
- Floating point: probabilities, edges, trust and fractions are reals; rounding to nine decimals is kept, binary rounding is not.
- The 34-digit precision of stored decimals: scores are exact integers in units of 10^-18 and means exact quotients.
- Tags, capabilities, endpoints, links, hashes, timestamps and burn flags of the registries: copies.
- Header parsing, JSON and base64 of the proof envelope, URI comparison and the gate: their answers are parameters of the verifier.
- Parsing of amount strings and field-by-field type checks of decoders: amounts arrive as numbers.
- Printed row ids, error texts and JSON details: failures are kept apart by kind only.
- Solvency.RunIsSolvent: for runs whose entries name outcomes their market has and offer no negative amount; `Backing.RunIsSolventIff` has the runs that meet neither, by what their entries take, and `Edges` two that fail.
- Claims.WorthOverTime: under the same two conditions; `Floors.FloorOverTime` has the floor without them, under the exact condition of `Floors.NeverFallsIff`.
- Leverage.BoundedLeverage: for markets whose capacities stay below the sentinel to the end of the run; `Budgets.StaysBelowSentinel` says so before the run and `ReachableBooks.CapacityKeptIff` states exactly when one entry keeps it.
- Leverage.BoundedMultiple: in whole doublings of the book; `Logarithms.LeverageWithinLog` has the documented logarithm.
- Verifier.VerifyNormalized: reading the header and the envelope, comparing URIs and reading dates are answers given to it.
- VenueReports.LedgerConserves: for events in chain order with fresh position ids, no entry into a finalized vintage and no claim on a position still waiting, which is what the settler and the chain guarantee.
- BookRuns.BooksConverge: for vested markets whose shape is known to every block and refunds that are the refused remainder of a known position, paid once.
- Admission.AtMostTwiceTheLimit: for one subject under one limit and one window length; a policy that changes between requests is not modelled.
- Entries.EntryRecords: where neither a book's room nor what an entry adds to a capacity is itself 2^256 - 1, which the code would read as unbounded.
- VenueHistory.PositionTells: for the same runs of events as `VenueReports.LedgerConserves`.
- RegistryHistory.FeedbackTells: for runs in which the index of an entry and the hash of a request are fresh, which the registries guarantee.
- SiweForms.CrLfReadsAlike: for messages in which no line feed follows a carriage return already; one that has both is read with every such pair as one line feed.
- Verifier.ProofUsedOnce: one process and one store, each verification a single step at one clock reading.
