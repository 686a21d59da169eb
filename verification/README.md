# A model of the UTxO order book's off-chain half

A Dafny model of the order book's transaction builder, indexer, planners and position
view, with proofs that the five agree with one another over unbounded runs.
`dafny verify dfyconfig.toml` checks the whole project.

An order is a UTxO at the order validator's address, staked to its owner, holding a
deposit, the offer and five beacon tokens (the "Specification" section of CIP-0089). A
taker may take it whole or, if it allows, in part: a partial fill pays the ceiling of
the price and re-locks the rest as a continuation order. The builder drafts these
transactions; the indexer reads the chain back into a cache, with no record of intent
other than the order in which inputs and outputs appear.

## How the project is laid out

- **Values.** `Wrappers`, `Sequences`, `Sorting`, `Products`, `ByteStrings`, `Decimals`.
- **Pricing.** `Pricing` (ceiling price, its inverse, the clamp), `FillRuns` (what any
  sequence of fills does to one order).
- **Encodings.** `Beacons`, `OrderDatum` (Plutus Data trees), `Orders` (references, ids
  and the cached record), `TokenAmounts`.
- **Builder.** `Ledger` (values and outputs), `TxBuilder` (what a transaction consists
  of, and the source's loops over a mutable body), `TxBuilderProofs`, `Batches`,
  `Payments` (what each seller gets, and until when), `Summaries` (what the taker is told),
  `Acceptance` (exactly which requests are built).
- **Indexer.** `ChainModel` (the chain and one snapshot of it), `OrdersRepo` (the cache),
  `Indexer`, `SyncProofs`, `PassReports` (a pass's counters and stamps), `Closure`
  (builder and indexer accept the same outputs).
- **The two together.** `RankPairing` (builder as printer, indexer as parser),
  `Balances` (what every posted transaction conserves), `Runs` (the chain as a state
  machine that records, beside the chain, what the builder meant), `Postings` (which
  funds let a draft be posted), `Ancestry` and `Lineages` (the two lineage writers),
  `Evolution` (runs of chain transactions, sync passes and repairs in any order),
  `Repairs` (what a repair achieves), `FillChains` (the pricing theorems along any order's
  on-chain history), `Sellers` (who is paid for it, from creation to the last fill).
- **Planners.** `SmartFill`, `SmartFillProofs`; `Arbitrage`, `ArbitrageProofs`, `Sizings`
  (trimming loses no opportunity), `ScanProofs`, `Executions` (a scanned opportunity as a
  batch), `RouteExecutions` (a route batch by batch), `RouteRuns` (its batches one after
  another on a moving chain), `Deliveries` (all of these, over the cache of any run).
- **Position view.** `Positions`, `Histories`, `Portfolios` (in any run).

Where the source updates state step by step the model is imperative: classes and methods
with loops, each proved equal to a specification function, and the properties are proved
about that function. Specification functions recurse in the direction their loop runs.
Every lemma turns automatic induction off, so its proof is all in its body.

## What the environment is taken to do

- The provider answers a whole sync pass or repair from one snapshot of the chain. The
  listings of order-beacon holders show exactly the unspent outputs with an order
  beacon, as they stand on the chain, in any order and with repetitions.
- A transaction's outputs come in index order and its inputs in the ledger's order;
  redeemers carry the index of their input and come in any order. One redeemer belongs
  to each script input of the draft; other inputs may have redeemers of other scripts.
- Coin selection adds wallet inputs and change outputs that carry no beacons, change
  last. A new transaction has a fresh id, spends outputs that exist and are unspent, and
  balances: inputs and mint equal outputs and fee, unit by unit. The ledger's minimum
  lovelace per output is not part of this model.
- A run starts from any chain of beaconless outputs, none of them spent.
- Transactions at order addresses are those this builder builds. The on-chain validators
  are not part of this model.
- Addresses and the configured policy id hold lower-case hex hashes of the right length,
  and the deposit is positive.
- SHA-256 is injective and its digests never equal a literal beacon name: a digest is
  represented by its preimage.
- Amounts are the source's unbounded integers.

## Where the code differs from its own words

- `order-indexer.ts:196-205` and section 4 of `docs/partial-fills.md` say that the pass
  which retires a partially filled parent surfaces its continuation at once. Line 155
  has already put every listed child among the orders seen, so under a consistent
  snapshot the surfacing branch is never taken and a fresh continuation stays out of
  the book until it is confirmed: `SyncProofs.FreshContinuationIsNotSurfaced`. The exact
  rule is `SyncProofs.SyncOpensExactly`; the branch does what it says for a continuation
  no listing showed (`SyncProofs.UnlistedContinuationIsSurfaced`).
- The duplicate-id guard compares strings, and the id pattern accepts leading zeros. Ids
  name one output exactly when they are equal without those zeros
  (`Orders.SameOutputSameId`); whatever leg the builder accepts alone it accepts twice
  in one request (`Batches.DoubledRequestIsBuilt`). Such a draft balances under no funds
  (`Postings.DoubledRequestIsStuck`), so every batch of a run names distinct outputs
  (`Runs.BatchPosted`).
- Creation compares asset id strings. Called directly, the builder accepts a trade of a
  nameless token for itself (`TxBuilderProofs.SelfTradeIsBuilt`), exactly when the two ids
  are read as one spelling (`TxBuilderProofs.SelfTradeIsOneSpelling`). The service's route
  (`routes/tx.ts:19-21`) admits only ids that print back unchanged, so no request through
  it is a self-trade: `TxBuilderProofs.RoutedCreationIsNoSelfTrade`.
- Asset ids with an odd number of name digits are accepted, and for every one of them
  pair beacons and pair ids disagree (`Beacons.OddNameBreaksAgreement`); they agree
  exactly when dropping the odd digits merges no two of the pairs compared
  (`Beacons.PairIdentitiesAgree`).
- The greedy planner is not optimal on every book (`SmartFillProofs.SpendCanFallShort`,
  `SmartFillProofs.ReceiveCanOverpay`). Against all plans, which may cut any order, receive
  mode is optimal exactly under a condition read off the book
  (`SmartFillProofs.ReceiveOptimalExactly`). Spend mode is exactly when the planner makes
  as much of the money left after the affordable prefix as cutting the next order would
  (`SmartFillProofs.SpendOptimalExactly`); that is read off the book when no later order
  fits (`SmartFillProofs.SpendOptimalOnPrefix`), and bounded by the book when one does
  (`SmartFillProofs.SpendOptimalNeeds`). Elsewhere the loss is bounded:
  `SmartFillProofs.ReceiveOverpaysAtMost`, `SmartFillProofs.SpendFallsShortByAtMost`.

## Model

| member | source | states |
|---|---|---|
| `Pricing.OwedIsCeiling` | `backend/src/protocol/datum.ts:107-111` | requiredPayment is the least payment at which the taker pays at least the order's price, compared exactly: Owed <= q iff take*ask <= q*offer |
| `Pricing.OwedBounds` | `backend/src/protocol/datum.ts:107-111` | the ceiling lies in [take*ask/offer, take*ask/offer + 1); a proper part costs at least 1 and no more than the ask |
| `Pricing.MaxTakeIsGreatest` | `backend/src/protocol/datum.ts:118-127` | maxTakeForSpend is exact: a take passes every partial-leg guard and costs at most the budget iff it lies in 1..maxTakeForSpend, for every budget (so 0 iff there is none) |
| `Pricing.ClampTakeIsNearest` | `frontend/lib/pricing.ts:36-42` | clampTake is 0 iff no partial take is acceptable, otherwise it is acceptable and no acceptable take is nearer to the one asked for |
| `FillRuns.RunConserves` | `backend/src/services/tx-builder.ts:739-743` | over any run of fills the remaining amounts are exactly the originals less the takes and less the payments |
| `FillRuns.RunNeverDearer` | `backend/src/services/tx-builder.ts:739-743` | the remaining unit price never rises over any run of fills |
| `FillRuns.RunPaysFairPrice` | `backend/src/protocol/datum.ts:107-111` | k >= 1 fills taking T in all pay P with T*ask <= P*offer < T*ask + k*offer, whatever the split |
| `FillRuns.SplittingNeverCheaper` | `backend/src/services/tx-builder.ts:681-690` | a run's total is itself one acceptable take, which costs no more than the run and less than k below it |
| `FillRuns.ClosingTakeSettles` | `backend/src/services/tx-builder.ts:634-653` | after any fills a closing full take makes receipts sum to exactly the original ask and sales to the original offer |
| `Beacons.PairBeaconIdentifiesPair` | `backend/src/protocol/beacons.ts:38-45` | the length-prefixed pair preimage is injective on unordered pairs: equal pair beacons iff equal pairs, for ledger assets |
| `Beacons.FiveNamesDistinct` | `backend/src/protocol/beacons.ts:60-80` | the five beacon names are pairwise distinct iff the owner hash is not the hex text of the order beacon's name |
| `Beacons.NameKindsNeverCollide` | `backend/src/protocol/beacons.ts:38-66` | pair, offer and ask names never coincide with one another for any assets of any orders, nor with an order or owner name |
| `Beacons.EachNameIdentifies` | `backend/src/protocol/beacons.ts:38-66` | each name alone identifies what it stands for: the unordered pair, the asset offered, the asset asked, the owner |
| `Beacons.NamesIdentifyOrderTerms` | `backend/src/protocol/beacons.ts:68-80` | equal beacon sets mean equal offer, ask and owner |
| `Beacons.ApiIdReadsBack` | `backend/src/protocol/beacons.ts:83-96` | fromApiAssetId(toApiAssetId(a)) == a for every asset the API accepts, odd names included |
| `Beacons.ApiIdPrintsBack` | `backend/src/protocol/beacons.ts:83-96` | an accepted id prints back unchanged iff it is "lovelace" or has exactly one dot |
| `Beacons.ApiIdInjective` | `backend/src/protocol/beacons.ts:83-85` | asset ids are equal iff the assets are, for every accepted or ledger asset |
| `Beacons.PairIdIdentifiesPair` | `backend/src/protocol/beacons.ts:98-101` | pair ids are equal iff the unordered pairs are, for every accepted or ledger asset |
| `Beacons.PairBeaconOfAccepted` | `backend/src/protocol/beacons.ts:38-45` | for all accepted assets pair beacons are equal iff the unordered pairs are once an odd last name digit is dropped |
| `Beacons.PairIdentitiesAgree` | `backend/src/protocol/beacons.ts:87-101` | pair beacons and pair ids of any two accepted pairs give one verdict iff dropping odd digits does not merge the pairs |
| `Beacons.OddNameBreaksAgreement` | `backend/src/protocol/beacons.ts:87-96` | for every accepted id with an odd number of name digits and every other asset there is a pair with the same beacon and another pair id |
| `Beacons.SameAssetSameSpelling` | `backend/src/protocol/beacons.ts:87-96` | two accepted ids denote one asset iff they are read as one spelling: a missing dot supplied, everything from a second dot dropped |
| `TxBuilderProofs.SelfTradeIsOneSpelling` | `backend/src/services/tx-builder.ts:326-331` | an accepted creation trades an asset for itself iff its two ids are read as one spelling, so never when both ids print back |
| `TxBuilderProofs.RoutedCreationIsNoSelfTrade` | `backend/src/routes/tx.ts:19-21` | through the service's route the guard is exact: every id it admits is accepted and prints back, so equal ids are equal assets and no creation is a self-trade |
| `TxBuilderProofs.SelfTradeIsBuilt` | `backend/src/services/tx-builder.ts:326-331` | to a caller that bypasses the route: every request the builder accepts it also accepts as a trade of a nameless token for itself, under that token's two ids |
| `OrderDatum.DecodeEncoded` | `backend/src/protocol/datum.ts:63-82` | decoding an encoded datum gives it back with hex lower-cased, when the version and amounts are acceptable, and fails otherwise |
| `OrderDatum.RoundTrip` | `backend/src/protocol/datum.ts:178-226` | decode(encode(d)) == d iff d is a version-1 datum with positive amounts and lower-case hex |
| `OrderDatum.DecodedIsOrderDatum` | `backend/src/protocol/datum.ts:178-226` | whatever tree is accepted decodes to such a datum |
| `OrderDatum.ReencodeIsIdentity` | `backend/src/protocol/datum.ts:178-226` | re-encoding an accepted tree gives that tree back iff it has no superfluous fields and canonical leaves |
| `Orders.ParsePrinted` | `backend/src/services/tx-builder.ts:434-437` | an order id reads back as its reference |
| `Orders.PrintParsed` | `backend/src/services/tx-builder.ts:434-437` | an accepted id is its reference's printed form iff its index has no leading zero |
| `Orders.OrderIdInjective` | `backend/src/services/order-indexer.ts:376` | ids are equal iff the references are |
| `Orders.SameOutputSameId` | `backend/src/services/tx-builder.ts:434-437` | two accepted ids name one output iff they are equal without the leading zeros of the index |
| `Batches.DistinctUnpadded` | `backend/src/services/tx-builder.ts:557-558` | a request names distinct outputs iff its ids stay distinct without leading zeros |
| `Batches.DoubledRequestIsBuilt` | `backend/src/services/tx-builder.ts:557-569` | against the guard's purpose: whatever leg the builder accepts alone it accepts twice, under its id and that id with a zero before the index, and the draft lists one input twice |
| `Ledger.BuilderSortsAsLedger` | `backend/src/services/tx-builder.ts:579-585` | comparing hex transaction ids as strings orders references exactly as the ledger orders their bytes |
| `TxBuilder.MintBeacons` | `backend/src/services/tx-builder.ts:306-322` | the counting loop mints exactly one entry per distinct name, in order of first use, signed by its number of uses |
| `TxBuilder.CountNames` | `backend/src/services/tx-builder.ts:312-313` | the counting map's keys, in insertion order, and counts are those of the list |
| `TxBuilder.AddNetLoop` | `backend/src/services/tx-builder.ts:612-621` | addNet's loop adds each entry's signed quantity to the net and skips beacon units |
| `TxBuilder.ReduceLoop` | `backend/src/services/tx-builder.ts:729-738` | the continuation's value: the taken offer subtracted, entries that reach zero dropped |
| `TxBuilder.ResolveLegs` | `backend/src/services/tx-builder.ts:565-569` | requested orders are re-read in the order given and the first failure is the result |
| `TxBuilder.TakeFull` | `backend/src/services/tx-builder.ts:634-663` | a full leg appends its spend and its tagged payment of ask plus deposit, and updates the net by both |
| `TxBuilder.TakePart` | `backend/src/services/tx-builder.ts:692-754` | a partial leg appends its spend, the ceiling payment and the continuation, and updates the net by all three |
| `TxBuilder.BuildLegs` | `backend/src/services/tx-builder.ts:623-762` | the loop over sorted legs rejects at the first failing guard, otherwise leaves exactly the specified inputs, outputs, net, fills and burns |
| `TxBuilder.Expirations` | `backend/src/services/tx-builder.ts:764-777` | the loop leaves the specified validity bound, and the deposit total of the full legs |
| `Payments.EarliestIsSmallest` | `backend/src/services/tx-builder.ts:764-770` | the validity bound is one of the expirations, at most every one of them, and absent iff there is none |
| `Payments.BatchIsTimely` | `backend/src/services/tx-builder.ts:587-595` | an accepted batch's bound is later than now and no later than any expiration of an order it spends |
| `Payments.EachLegIsPaidOnce` | `backend/src/services/tx-builder.ts:545-553` | no double satisfaction: a leg's payment stands at its place, to its seller, for at least what is owed of every asset, and no other output of the batch carries its tag |
| `TxBuilder.FindExpired` | `backend/src/services/tx-builder.ts:587-595` | found iff some order of the batch has expired |
| `TxBuilder.AssembleBatch` | `backend/src/services/tx-builder.ts:587-783` | everything after sorting, guards in source order |
| `TxBuilder.BuildTakeManyOrders` | `backend/src/services/tx-builder.ts:554-872` | the imperative build equals the specification function on every request, including each rejection and its order |
| `Summaries.FillsAreTold` | `backend/src/services/tx-builder.ts:739-756` | the summary lists exactly one fill per partial leg, in builder order; under each leg's reference the take and what remains are the order's offer, the price paid and what remains its ask, the spend's redeemer carries the same take, and an output at the address told decodes to the order's datum with exactly those remaining amounts |
| `Summaries.TotalsAreTold` | `backend/src/services/tx-builder.ts:804-858` | the names told as burned are those the mint field burns, the deposits told are what full legs' payments hold in lovelace beyond an ask in ADA, and the expiration told is the validity bound |
| `Summaries.SummaryIsTrue` | `backend/src/services/tx-builder.ts:739-858` | so for every accepted batch, with every requested take among its fills |
| `TxBuilderProofs.ExactOrderResolves` | `backend/src/services/tx-builder.ts:426-473` | resolveOrder accepts every order output and recovers its own datum and deposit |
| `TxBuilderProofs.CreateMakesAnOrder` | `backend/src/services/tx-builder.ts:326-423` | a creation not rejected mints its five beacons and places exactly one output, an exact order for the requested amounts, owned by the wallet's staking key, whose datum names the payment key and the staking key, if a key, of the payment address asked for, the wallet's own when none is |
| `Acceptance.CreateAcceptedExactly` | `backend/src/services/tx-builder.ts:326-360` | a creation is accepted iff the ids differ as text, the wallet can pay, the expiration is still ahead, and some order datum of the protocol carries what is asked for and names the payee asked for |
| `Acceptance.CancelAcceptedExactly` | `backend/src/services/tx-builder.ts:499-508` | a cancellation is accepted iff the indexer sees a live order under its id and the wallet can pay; it then spends that order alone and needs the signature of the staking key of the order's own address |
| `Acceptance.BatchAcceptedExactly` | `backend/src/services/tx-builder.ts:554-690` | a batch is accepted iff its ids are distinct as text and few enough, the wallet can pay, and the indexer sees under each id a live, unexpired order that may be taken as asked: whole, or in an acceptable part if it allows parts |
| `Sellers.LegPaysPayee` | `backend/src/services/tx-builder.ts:627-634` | the payment of a leg, full or partial, goes to the payment credential of the payee its order's datum names, with the payee's staking credential if that is a key and with none otherwise |
| `Sellers.SellerIsPaid` | `backend/src/services/tx-builder.ts:627-762` | in every run, whoever takes an order created earlier in it, or any continuation of that order, wholly or in part, pays the address its creation asked for, under that leg's own tag |
| `TxBuilderProofs.ReduceTakesExactly` | `backend/src/services/tx-builder.ts:729-738` | reducing an order's value lowers the offer unit by exactly the take and no other unit |
| `TxBuilderProofs.ContinuationIsAnOrder` | `backend/src/services/tx-builder.ts:727-747` | closure: a continuation is again an exact order output with its parent's owner, pair, beacons, payment address, expiry, address and deposit; only the two amounts fall |
| `TxBuilderProofs.MintEntriesAggregate` | `backend/src/services/tx-builder.ts:300-322` | for any list of names the mint field is a map whose total per name is sign times its multiplicity |
| `TxBuilderProofs.BatchMintField` | `backend/src/services/tx-builder.ts:779-781` | each burned name appears once, with minus the number of full legs carrying it, never zero |
| `TxBuilderProofs.LegBeacons` | `backend/src/services/tx-builder.ts:631-747` | a partial leg's five beacons all land in its continuation; a full leg's are in none of its outputs |
| `TxBuilderProofs.BatchConserves` | `backend/src/services/tx-builder.ts:603-781` | for every batch and every asset: order values in plus mint equals outputs plus takerNet |
| `TxBuilderProofs.TakerNetIsGains` | `backend/src/services/tx-builder.ts:603-621` | takerNet is the sum of what each leg gives and takes; every deposit cancels, partial min-ADA does not |
| `TxBuilderProofs.ResolvedAreGood` | `backend/src/services/tx-builder.ts:565-569` | on a chain whose beacons sit in order outputs only, every resolved request is a genuine order with its own datum |
| `TxBuilderProofs.PricedAreGood` | `backend/src/services/tx-builder.ts:666-690` | the guards leave only acceptable ceiling-priced cuts, legs kept in order |
| `Batches.AcceptedBatch` | `backend/src/services/tx-builder.ts:554-783` | every accepted request becomes one leg per requested order, all on current order outputs; the ids name distinct outputs iff no leg spends what another does, and then the legs are in the ledger's input order |
| `Batches.RequestsAreBuilt` | `backend/src/services/tx-builder.ts:565-585` | sorting loses and invents nothing: every requested order has its leg, with the take asked for |
| `Closure.ExactOrderIsIndexed` | `backend/src/services/order-indexer.ts:344-407` | the indexer caches every order output with exactly its datum's terms and its deposit |
| `Closure.ContinuationIsIndexed` | `backend/src/services/order-indexer.ts:344-407` | the cached continuation is the cached parent at the new reference with the amounts lowered by the take and its ceiling price |
| `Closure.BeaconlessIsNoOrder` | `backend/src/services/order-indexer.ts:363-366` | an output without beacons is an order to neither indexer nor builder |
| `Closure.IndexerAgreesWithBuilder` | `backend/src/services/order-indexer.ts:344-407` | on every output the protocol places, validateAndMap accepts iff resolveOrder does iff it is an order output |
| `Closure.NoCounterfeit` | `backend/src/services/tx-builder.ts:445-457` | for any output the ledger can hold: the builder resolves it iff it holds exactly one of each beacon implied by its own datum of this protocol; the indexer caches it iff it also stands at the validator, staked to the datum's owner, with at least the offer, and then with the datum's terms and the lovelace besides the offer as deposit |
| `RankPairing.PartialInputsAre` | `backend/src/services/order-indexer.ts:483-489` | the ranked partial inputs decoded from unordered redeemers are the partial script inputs in builder order, whatever wallet or foreign script inputs lie between |
| `RankPairing.BatchHasLayout` | `backend/src/services/tx-builder.ts:571-585` | every completed batch has the layout: partial inputs and continuations line up rank by rank |
| `RankPairing.LayoutDecodes` | `backend/src/services/order-indexer.ts:276-302` | on such a layout forward and backward decoding are mutual inverses |
| `RankPairing.PairingIsExact` | `backend/src/services/order-indexer.ts:483-501` | a partial input is paired with exactly its leg's continuation, and that continuation back with exactly that order |
| `RankPairing.OnlyContinuationsHaveParents` | `backend/src/services/order-indexer.ts:290-302` | no output of a batch but a continuation is given a parent |
| `RankPairing.BatchIsClassified` | `backend/src/services/order-indexer.ts:452-505` | classifySpend gives every order a batch consumed its own redeemer's status and, if partial, exactly the continuation emitted for it |
| `OrdersRepo.MemoryOrdersRepo.UpsertOpenOrder` | `backend/src/db/orders-repo.ts:52-59` | the stored order is open and shows the lineage row recorded for it, if any; first insertion keeps its place |
| `OrdersRepo.MemoryOrdersRepo.MarkSpent` | `backend/src/db/orders-repo.ts:61-76` | a known order's status changes and a known spending transaction is kept; an unknown id changes nothing |
| `OrdersRepo.MemoryOrdersRepo.SetLineage` | `backend/src/db/orders-repo.ts:78-87` | the row is recorded and shown on the child if it is cached |
| `OrdersRepo.MemoryOrdersRepo.ListOpenOrderIds` | `backend/src/db/orders-repo.ts:99-103` | exactly the open orders, in insertion order |
| `OrdersRepo.OpenIdsAreOpen` | `backend/src/db/orders-repo.ts:99-103` | an id is listed iff the order is cached open |
| `OrdersRepo.OpenIdsInOrder` | `backend/src/db/orders-repo.ts:99-103` | and the ids come in the order of insertion |
| `OrdersRepo.UpsertKeeps` | `backend/src/db/orders-repo.ts:52-59` | upserting keeps the repository valid and opens that order only |
| `OrdersRepo.MarkSpentKeeps` | `backend/src/db/orders-repo.ts:61-76` | marking keeps it valid and closes that order only |
| `OrdersRepo.SetLineageKeeps` | `backend/src/db/orders-repo.ts:78-87` | linking keeps it valid and opens or closes nothing |
| `OrdersRepo.WritersTouchOne` | `backend/src/db/orders-repo.ts:48-93` | each writer changes one record and in it only what it is for; marking without a transaction keeps the one known; rows change by linking only |
| `OrdersRepo.UpsertShowsLineage` | `backend/src/db/orders-repo.ts:52-59` | stored orders go on showing exactly the recorded rows |
| `Indexer.OrderIndexer.CollectLinks` | `backend/src/services/order-indexer.ts:256-317` | the bounded walk collects the links up to a recorded ancestor or a root, or gives up |
| `Indexer.OrderIndexer.BackfillAncestry` | `backend/src/services/order-indexer.ts:256-341` | a finished walk is written root to tip; an unfinished one changes nothing |
| `Indexer.OrderIndexer.DiscoverOne` | `backend/src/services/order-indexer.ts:152-185` | one output as listed: verified, skipped if open, held back if fresh, else cached with its ancestry on first sight |
| `Indexer.OrderIndexer.DiscoverCandidates` | `backend/src/services/order-indexer.ts:142-187` | step 1 over every holder and listing |
| `Indexer.OrderIndexer.RetireOne` | `backend/src/services/order-indexer.ts:191-229` | one vanished order: classified, marked, its continuation linked and surfaced if unseen |
| `Indexer.OrderIndexer.DoSync` | `backend/src/services/order-indexer.ts:138-236` | a whole pass equals the specification function, counters and cursor included |
| `Indexer.OrderIndexer.RepairLineage` | `backend/src/services/order-indexer.ts:120-136` | the loop equals the specification function, counters included |
| `SyncProofs.SyncOpensExactly` | `backend/src/services/order-indexer.ts:138-236` | from any cache and any consistent snapshot, afterwards an order is open iff it is live and valid and was open before or has enough confirmations |
| `PassReports.PassCounts` | `backend/src/services/order-indexer.ts:138-236` | a pass reports as open how many of the outputs listed to it are open afterwards, and as spent how many orders open after its first step are not alive; the cursor is its tip |
| `PassReports.PassStamps` | `backend/src/services/order-indexer.ts:172` | an order a pass caches for the first time shows the pass's slot, every other order that or the slot it showed |
| `SyncProofs.EachBlockConfirms` | `backend/src/services/chain-provider.ts:295-303` | a transaction in the tip's block counts one confirmation, one more for every later block, none above the tip |
| `SyncProofs.SecondPassChangesNothing` | `backend/src/services/order-indexer.ts:138-236` | a second pass over the same snapshot leaves the cache as it is |
| `SyncProofs.FreshContinuationIsNotSurfaced` | `backend/src/services/order-indexer.ts:196-227` | against the comment: a listed but fresh continuation is not surfaced by the pass that retires its parent; it is open iff confirmed |
| `SyncProofs.UnlistedContinuationIsSurfaced` | `backend/src/services/order-indexer.ts:206-229` | a live continuation that no listing showed is cached open, linked and stamped the moment its parent is retired, and nothing else is opened |
| `SyncProofs.RetireMarks` | `backend/src/services/order-indexer.ts:191-229` | what retiring one vanished order writes |
| `Runs.StepKeepsSound` | `backend/src/services/tx-builder.ts:326-783` | create, take batch, cancel and other transactions keep the world sound: the indexer classifies every consumed order as the builder meant it and finds exactly the true parent of every continuation |
| `Runs.StepKeepsTerms` | `backend/src/services/tx-builder.ts:739-747` | every chain step keeps each continuation one acceptable fill away from its parent and otherwise identical |
| `Runs.BatchPosted` | `backend/src/services/tx-builder.ts:286-298` | every batch that is posted on a clean chain is one whose ids name distinct outputs, since nothing else balances |
| `Postings.CreatePosts` | `backend/src/services/tx-builder.ts:286-298` | a creation not rejected can be completed from given funds iff they hold the deposit, the fee and the offer |
| `Postings.CancelPosts` | `backend/src/services/tx-builder.ts:286-298` | a cancellation not rejected can be completed iff the funds' lovelace and the order's cover the fee |
| `Postings.TakePosts` | `backend/src/services/tx-builder.ts:286-298` | a batch not rejected can be completed iff its ids name distinct outputs and for every asset the funds plus the reported taker net cover the fee |
| `Postings.DoubledRequestIsStuck` | `backend/src/services/tx-builder.ts:286-298` | the doubled request the builder accepts is completed by no funds at any fee |
| `Balances.BalancedLegsDiffer` | `backend/src/services/tx-builder.ts:571-585` | a balanced transaction of a batch spends as many orders as the batch has legs |
| `Runs.BatchStep` | `backend/src/services/tx-builder.ts:554-783` | a batch of any legs, completed with any wallet inputs, keeps the world sound |
| `Runs.CancelStep` | `backend/src/services/tx-builder.ts:499-508` | a cancelled order is read back as cancelled and leaves no child |
| `Ancestry.WalkEnds` | `backend/src/services/order-indexer.ts:263` | the walk is given up iff 64 or more unrecorded ancestors lie ahead |
| `Ancestry.WalkRows` | `backend/src/services/order-indexer.ts:329-337` | a finished walk adds only true rows, only upward, one for the node itself if it has a parent |
| `Ancestry.WritingTracks` | `backend/src/services/order-indexer.ts:256-341` | reconstruction keeps a true cache true and touches no row already there |
| `Lineages.ForwardRow` | `backend/src/services/order-indexer.ts:206-212` | the forward writer never meets a row of the backward writer: an open order's continuation has none yet |
| `Lineages.SyncTracks` | `backend/src/services/order-indexer.ts:138-236` | a pass keeps the cache true, keeps every row, and keeps it complete while walks are short |
| `Lineages.RepairTracks` | `backend/src/services/order-indexer.ts:120-136` | so does a repair |
| `Repairs.RepairRestoresRows` | `backend/src/services/order-indexer.ts:120-136` | after a repair every order that was open, has a parent on the chain, and had fewer than 64 unrecorded ancestors when its turn came (so also if before the repair) has a row that names its true parent |
| `Repairs.OnlyPartialsHaveParents` | `backend/src/services/order-indexer.ts:111-113` | the skip is free: a cached order with a parent on the chain allows partial fills |
| `Repairs.RepairCountsTurns` | `backend/src/services/order-indexer.ts:121-135` | checked counts the turns that find an open partial-fill order without a row, repaired those of them that leave it with one |
| `Evolution.EveryStateTruthful` | `backend/src/services/order-indexer.ts:138-341` | in every state of every run from an unused chain and an empty cache, cached terms, statuses, parents and roots are true and every recorded parent is cached |
| `Evolution.RowsAreFinal` | `backend/src/services/order-indexer.ts:206-341` | no lineage row is ever rewritten in any run, so the two writers never disagree |
| `Evolution.RowsFormPaths` | `backend/src/db/orders-repo.ts:78-93` | rows are true fill edges, no two share a parent, and all lead forward in chain order: disjoint acyclic paths |
| `Evolution.AncestryIsShown` | `backend/src/services/order-indexer.ts:182-341` | if no pass starts a reconstruction with 64 or more unrecorded ancestors every cached continuation shows its true parent and true origin, every other order none |
| `Evolution.SyncShowsFates` | `backend/src/services/order-indexer.ts:189-229` | after a pass every cached order is open and live, or carries its true fate and spending transaction |
| `Evolution.ReconstructionLimit` | `backend/src/services/order-indexer.ts:263-327` | the limit is exact in both directions: nothing is written at 64 or more, the node's row is at fewer |
| `FillChains.EveryOrderInherits` | `backend/src/services/tx-builder.ts:727-747` | in every sound world an order has its origin's terms and exactly the amounts its chain of fills leaves |
| `FillChains.FillChainIsFair` | `backend/src/protocol/datum.ts:107-111` | along the k fills of any order's chain the seller was paid at least the origin's price and less than k units more |
| `SmartFill.PlanSmartFill` | `backend/src/services/smart-fill.ts:101-283` | the planner's loops compute the specified route in both modes |
| `SmartFill.GreedyPhase` | `backend/src/services/smart-fill.ts:166-198` | the whole-order loop: legs, totals, remaining budget and selection |
| `SmartFill.MarginalPhase` | `backend/src/services/smart-fill.ts:204-226` | at most one marginal partial leg, the first that is affordable and not dust |
| `SmartFillProofs.BeforeIsStrictTotal` | `backend/src/services/smart-fill.ts:132-139` | the comparator is a strict total order on positive orders with distinct ids |
| `SmartFillProofs.RouteOfPermutation` | `backend/src/services/smart-fill.ts:120-139` | the route is the same for every permutation of the book |
| `SmartFillProofs.CandidatesAreRanked` | `backend/src/services/smart-fill.ts:132-139` | dearer candidates come later, at one price smaller offers do, and of those larger ids |
| `Deliveries.CandidatesAreTakable` | `backend/src/services/smart-fill.ts:120-131` | right after a pass of any run a cached row is a candidate iff it offers what is wanted for what is spent and the builder would take it whole at that time |
| `SmartFillProofs.RouteReports` | `backend/src/services/smart-fill.ts:228-231` | the route reports how many orders it chose from, and as atomic iff one transaction holds all its legs |
| `SmartFillProofs.RouteIsExecutable` | `backend/src/services/smart-fill.ts:170-226` | every leg passes the builder's guards, no order is used twice, and at most one leg is partial, the last |
| `RouteExecutions.RouteBatchDelivers` | `backend/src/services/smart-fill.ts:228-231` | every batch of consecutive route legs on current orders is accepted whole, and its taker net is the batch's receive and spend totals less min-ADA, which only the batch with the route's last leg gives |
| `Deliveries.RoutedBatchDelivers` | `backend/src/services/tx-builder.ts:554-783` | so for every route planned over the cached orders right after a pass of any run, on the chain as it stands |
| `RouteRuns.Chunk` | `frontend/components/TradePanel.tsx:275-279` | the loop cuts the legs into the specified consecutive groups |
| `RouteRuns.ChunkCount` | `backend/src/services/smart-fill.ts:228-231` | as many groups as the route's transaction count |
| `RouteRuns.NextBatchDelivers` | `frontend/components/TradePanel.tsx:281-294` | batches posted one after another, with any other transactions in between that leave the route's orders alone: each next batch is accepted on the chain as it then stands at what it promises |
| `Deliveries.RouteDeliversInTurn` | `backend/src/services/tx-builder.ts:554-783` | so for every route over the cached orders right after a pass of any run, and its batches together promise the route's totals |
| `SmartFillProofs.ReceiveOptimalExactly` | `backend/src/services/smart-fill.ts:170-182` | receive mode, for every book and target: no plan delivering as much, cutting whatever orders it likes, costs less iff the order the greedy stops at may be cut or cutting it would save nothing |
| `SmartFillProofs.ReceiveOverpaysAtMost` | `backend/src/services/smart-fill.ts:170-182` | in every other case it overpays, against any plan, by at most that order's ask less its price for what was missing |
| `SmartFillProofs.CuttableBookIsOptimal` | `backend/src/services/smart-fill.ts:175` | on a book whose orders can all be cut it is optimal for every target |
| `SmartFillProofs.ReceiveShortfallTakesAll` | `backend/src/services/smart-fill.ts:166-198` | when it falls short, no plan at all delivers more |
| `SmartFillProofs.SpendModeAccounts` | `backend/src/services/smart-fill.ts:183-226` | spend plus leftover is the limit and no unselected whole order fits the whole phase's leftover |
| `SmartFillProofs.SpendOptimalExactly` | `backend/src/services/smart-fill.ts:183-226` | spend mode, for every book and budget: no plan within the budget receives more iff the budget buys the book, or the planner run on the remaining candidates with the money left after the affordable prefix receives no less than cutting the next order would bring |
| `SmartFillProofs.SpendOptimalOnPrefix` | `backend/src/services/smart-fill.ts:200-226` | read off the book when no later order fits that money: iff the first order that can be cut for more than dust gives as much as the first order out of reach would; so whenever that order can be cut, or nothing is left |
| `SmartFillProofs.SpendOptimalNeeds` | `backend/src/services/smart-fill.ts:183-226` | read off the book when a later order fits: optimal only if cutting the order out of reach brings no more than the first such order and, at the price of the order out of reach, the money then left |
| `SmartFillProofs.SpendFallsShortByAtMost` | `backend/src/services/smart-fill.ts:183-226` | in every other case any plan receives more by at most that difference |
| `SmartFillProofs.SpendCanFallShort` | `backend/src/services/smart-fill.ts:183-198` | a planned book on which spend mode buys less than a plan of whole orders would |
| `SmartFillProofs.ReceiveCanOverpay` | `backend/src/services/smart-fill.ts:170-198` | a planned book on which receive mode pays more than a plan of whole orders would |
| `SmartFillProofs.RatioReadsBack` | `backend/src/services/smart-fill.ts:70-81` | the printed price reads back as the ratio truncated at its precision |
| `Arbitrage.SizeRotation` | `backend/src/services/arbitrage.ts:71-103` | one rotation sized leg by leg from the previous delivery, or none |
| `Arbitrage.ComputeNets` | `backend/src/services/arbitrage.ts:106-116` | the nets map, leg by leg |
| `Arbitrage.CheckRiskless` | `backend/src/services/arbitrage.ts:119-126` | true iff every asset nets at least 0 and one nets more |
| `Arbitrage.SumPartialMinAda` | `backend/src/services/arbitrage.ts:129-141` | the lovelace added to partial payments |
| `Arbitrage.EvaluateCycle` | `backend/src/services/arbitrage.ts:155-180` | the running best over all rotations |
| `Arbitrage.BuildEdges` | `backend/src/services/arbitrage.ts:263-285` | the edge map: every list complete, in order, sorted by rate |
| `Arbitrage.Finder.FindDirects` | `backend/src/services/arbitrage.ts:309-314` | the 2-cycle loops consider exactly the specified cycles in order |
| `Arbitrage.Finder.FindTriangles` | `backend/src/services/arbitrage.ts:319-330` | the 3-cycle loops consider exactly the specified cycles in order |
| `Arbitrage.FindArbitrage` | `backend/src/services/arbitrage.ts:245-350` | the scan: book, edges, cycles, ranking, cap |
| `ArbitrageProofs.SizedLegsAreOf` | `backend/src/services/arbitrage.ts:71-103` | every sized leg is its whole order or an acceptable part at the ceiling price, and pays out of the leg before |
| `Sizings.SizeLegIsGreatest` | `backend/src/services/arbitrage.ts:71-92` | no leg that the carry can pay takes more than the sized one, the whole order where the carry covers its ask; a leg is refused iff none fits at all |
| `Sizings.SizedDeliversMost` | `backend/src/services/arbitrage.ts:71-103` | leg by leg, no chained sizing of the rotation that starts with a whole order delivers more |
| `Sizings.EvaluatesWhatPays` | `backend/src/services/arbitrage.ts:155-180` | a rotation is evaluated as riskless iff any such sizing of it is: trimming greedily loses no opportunity |
| `ArbitrageProofs.NetsAreFlows` | `backend/src/services/arbitrage.ts:106-116` | each asset's net is the sum of what the legs deliver and pay of it |
| `ArbitrageProofs.RisklessMeansFunded` | `backend/src/services/arbitrage.ts:119-126` | around a cycle, riskless iff every leg is paid by the one before it and some leg leaves something over |
| `ArbitrageProofs.PrefilterIsSound` | `backend/src/services/arbitrage.ts:287-296` | no riskless cycle of any length is discarded: a riskless sizing of any rotation makes the product of offers exceed the product of asks |
| `ArbitrageProofs.BestIsBest` | `backend/src/services/arbitrage.ts:155-180` | a sizing is kept iff some rotation is riskless, and no rotation is better |
| `Sizings.BestRanksFirst` | `backend/src/services/arbitrage.ts:155-180` | the sizing kept has the fewest legs cut, then the most lovelace once the min-ADA and the fee are taken off what its legs leave, then comes earliest; and that is the figure reported |
| `ScanProofs.CandidatesAre` | `backend/src/services/arbitrage.ts:309-330` | for every top-K, a cycle is considered iff it is anchored at its smallest asset and each of its orders is among the first K of its edge |
| `ScanProofs.CycleIdInjective` | `backend/src/services/arbitrage.ts:297-300` | the joined sorted ids tell anchored cycles apart, so the found map never drops one for another |
| `ScanProofs.FoundIsExact` | `backend/src/services/arbitrage.ts:263-330` | for every top-K, a cycle is found iff it is an anchored 2- or 3-cycle of the book that can be traded around risklessly from some whole order on, in any sizes the builder accepts, and fewer than K orders of each edge give more for less, or as much under a smaller id; a K of the book's size loses none |
| `Deliveries.BookIsTakable` | `backend/src/services/arbitrage.ts:255-261` | right after a pass of any run the book scanned holds exactly the cached rows the builder would take whole at that time |
| `ScanProofs.ScanIsExact` | `backend/src/services/arbitrage.ts:263-345` | with room for all found, a cycle is reported iff it is such a cycle |
| `ScanProofs.CapDropsTheWorst` | `backend/src/services/arbitrage.ts:332-345` | without room, nothing left out ranks before anything listed, by margin and then by id |
| `ScanProofs.EveryRisklessCycleIsReported` | `backend/src/services/arbitrage.ts:309-330` | wherever a riskless cycle within the limits is cut open, its one anchored rotation is reported |
| `ScanProofs.FoundOnce` | `backend/src/services/arbitrage.ts:294-304` | no cycle is found twice |
| `ScanProofs.ScanIsRanked` | `backend/src/services/arbitrage.ts:332-345` | margins do not increase down the list, and ids ascend among equal margins |
| `Executions.SizedLegIsAccepted` | `backend/src/services/tx-builder.ts:666-690` | every leg the scanner sizes passes the builder's guards at the scanner's amounts |
| `Executions.ExecutionMatchesScan` | `backend/src/services/arbitrage.ts:106-141` | executed as one batch an opportunity on current orders is accepted whole, and takerNet is netsOf less partialMinAdaOf on lovelace, unit by unit |
| `Executions.ReportedNetsAreDelivered` | `backend/src/services/arbitrage.ts:155-180` | so the best sizing of any cycle of current orders is what its batch delivers |
| `Deliveries.ReportedCycleDelivers` | `backend/src/services/arbitrage.ts:332-350` | every entry of a scan over the cached orders right after a pass of any run is accepted as one batch on the chain as it stands, with exactly the nets and min-ADA reported |
| `Positions.OrderChain` | `frontend/lib/positions.ts:35-62` | the chain loops compute the specified chain for arbitrary links, and terminate |
| `Positions.GroupPositions` | `frontend/lib/positions.ts:64-93` | grouping, chaining and ranking of all rows |
| `Positions.ListFillEvents` | `frontend/lib/positions.ts:146-172` | the events of a position |
| `Positions.ChainIsPermutation` | `frontend/lib/positions.ts:35-62` | whatever the links, a chain lists every member of its group exactly once |
| `Positions.GroupingPartitions` | `frontend/lib/positions.ts:64-93` | every order is in exactly one chain exactly once |
| `Positions.PositionIsItsGroup` | `frontend/lib/positions.ts:65-72` | a position's chain is exactly the rows of its root |
| `Positions.PositionsAreSorted` | `frontend/lib/positions.ts:84-93` | positions come by the earliest of their rows in the input |
| `Positions.TrueChainIsListed` | `frontend/lib/positions.ts:41-58` | a true fill chain is listed root to tip however its rows arrive |
| `Positions.RestOfChainIsListed` | `frontend/lib/positions.ts:46-58` | so is the rest of a chain whose root's row is not there yet, from its first row on |
| `Positions.EventsAccount` | `frontend/lib/positions.ts:146-172` | sales plus the tip's remainder equal the original offer iff no step raises the offer; receipts equal the original ask when every step sells |
| `Histories.HistoryAccounts` | `frontend/lib/positions.ts:146-172` | for every cached, linked fill chain the view lists origin to tip and the events sum exactly to the origin's offer and ask; there is one per fill, with the take and its ceiling price, under the transaction that spent the order, and one closing event iff the tip was taken or cancelled |
| `Portfolios.GroupIsPath` | `frontend/lib/positions.ts:64-72` | in a complete cache the rows grouped under one root are exactly one fill chain from its origin to its furthest cached order |
| `Portfolios.EveryPositionTellsHistory` | `frontend/lib/positions.ts:64-93` | in every state of every run in which no pass gave up, each position of an owner's cached orders is one whole fill chain, listed origin to tip, with one true event per fill that sum exactly to the origin's offer and ask |
| `TokenAmounts.ReadBackPrinted` | `frontend/lib/tokens.ts:43-60` | toRawAmount(fromRawAmount(raw, d), d) == raw iff raw is not negative, and is rejected otherwise |
| `TokenAmounts.PrintBackRead` | `frontend/lib/tokens.ts:43-60` | fromRawAmount(toRawAmount(s, d), d) is the canonical form of every accepted s |
| `TokenAmounts.CanonicalFormIsStable` | `frontend/lib/tokens.ts:43-60` | the canonical form has no superfluous zeros, the same value, and is a fixed point |

## Left out

- How coin selection picks its inputs, the size of fees, collateral choice, script attachment, CBOR and bech32, slot conversion: wallet library work; the wallet checks the builder makes itself are modelled as one predicate.
- Network and database access, `PgOrdersRepo`, HTTP routes and settings: the provider is a function of a chain snapshot.
- Exceptions raised by provider calls inside `classifySpend` and `backfillAncestry`: a snapshot always answers.
- Reorganisations: chains only grow, so the self-healing the comments mention is not modelled.
- The `running` flag and the cooldown of `triggerSync`: passes run one after another.
- The on-chain validators: only compiled code is present.
- `listByPair`, `listPairs`, the order `listByOwner` sorts by and `buildTakeOrder`: filters of the cache, an order no result depends on, and a batch of one.
- Warnings, descriptions, the uniform totals, `marginPct` and the sorted text form of `takerNet`: prose and formatting.
- `positionStatus`: its fraction is floating point and its labels are user interface.
- The empty string as a second spelling of the lovelace unit, and unit strings: a unit is a policy and a name kept apart.
- JavaScript number precision of output indices, slots and expirations: they are integers here.
- The cache's keys are output references, not the id strings printed from them; `Orders.OrderIdInjective` relates the two.
- The nested edge maps of the scan are one map keyed by the pair of assets, with the key lists beside it, and the found map is its list of entries in insertion order.
- Postings.CreatePosts: funds suffice by the balance alone; the ledger's minimum lovelace per output, its size limits and the selector's other failures are not modelled.
- Postings.CancelPosts: likewise.
- Postings.TakePosts: likewise.
- SmartFillProofs.ReceiveOptimalExactly: compares with plans that may cut any order; against plans that respect each order's partial-fill flag it gives the sufficient half and the bound on the loss, the rest being a knapsack problem.
- SmartFillProofs.SpendOptimalExactly: the same plans, for the same reason.
- Executions.ExecutionMatchesScan: units are lovelace and tokens under a 28-byte policy with a literal name, which is what an asset id can spell.
