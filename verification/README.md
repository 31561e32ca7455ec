# Aleph Zero node and contracts: a verified model

A Dafny model of the parts of the Aleph Zero repository that keep state or do real integer arithmetic,
with proofs of what they guarantee over whole runs. `dafny verify dfyconfig.toml` checks everything.

| files | what they model | main theorems |
|---|---|---|
| `TokenBucket`, `TokenBucketRuns` | the token bucket behind the rate limiter | `AnswerExact`, `RateBound`, `SlackExact`, `TokensConserved`, `DelayClearsDebt` |
| `SessionBoundaries`, `SharedSessionMap`, `SessionMapUpdater` | the session map, its subscriptions and the task that fills it | `SubscriptionFate`, `BatchingInsensitive`, `MapIsWindow`, `CatchUpExact`, `PanicsIff`, `FutureSubscription` |
| `SimpleDex`, `DexRuns`, `Psp22` | the constant-product exchange over plain token ledgers | `SwapSucceedsIff`, `QuoteExact`, `SplittingNeverPays`, `RunKeepsProduct`, `NoFreeLunch` |
| `MerkleTree`, `MerkleOverflow` | the incremental Merkle tree of the Poseidon benchmark contract, up to and past its capacity | `InsertKeepsTree`, `StoredRoot`, `StoredRootAlways` |
| `Marketplace`, `ButtonGame`, `GameRuns` | the Dutch auction, the button game, and both together | `PriceDescends`, `MinimumReachedIff`, `UndershootsIff`, `AuctionSound`, `PressiahPaidOnce`, `TimedRewards`, `BooksBalance`, `RewardBalances` |
| `Quorum` | multisignature completeness behind finality | `CompleteIff`, `QuorumsOverlap`, `NoConflictingQuorums`, `ThresholdLeast` |
| `MultisigParty`, `MultisigContext` | multisig parties and the contexts of a signature aggregation | `PartyCanonical`, `CoSignersCorrect`, `ContextStaysFaithful`, `BoundBrokenInRun` |
| `Aggregator` | the block signature aggregator | `OrderKept`, `EmittedCarryLatest`, `ReadyHashesLeaveInRun` |

`Arithmetic` holds the shared types, the machine-integer bounds and the facts about floors, remainders and
finite sets the others rely on.

**How the model is built.** Each transition is a function on a value that stands for the stored state.
Where the program updates fields in place there is also a class whose methods do the same steps and are
proved against that function. Statements about runs quantify over lists of calls, notifications, messages
or events of any length. What each run should amount to is defined independently of the transitions: the
tokens a rate produces, the window of sessions, the recursive Merkle root, the fate of a subscription, the
order of first starts, the books kept by reading the event log.

**Conventions.** Saturating and checked operations carry their 32-, 64- or 128-bit limits; `usize` has 64
bits. Instants are nanoseconds since an arbitrary origin, because the bucket rounds them down to
microseconds. A contract message that returns an error or traps leaves the world unchanged. A panic of the
session map updater ends its trace. Clocks, block numbers, signature verification, the hash functions, the
authority provider and the answers of the chain to the multisig client are parameters.

**Where the documentation and the code differ.**

- The comment on a multisig context, open or closed, says that it always has fewer approvers than its
  threshold. An approval breaks that exactly when the context was past it already or a new member meets the
  threshold (`BoundBrokenIff`, `BoundBrokenWithCallIff`); the result is still open exactly when no call is
  stored. `BoundBrokenInRun` states the condition for whole runs, `BoundBroken` gives both runs, and
  `BoundHoldsWithCall` says where the bound does hold.
- The auction is documented to reach its minimal price after its whole length. On a shallow line it can get
  there earlier: `MinimumReachedIff` and `ReachedEarlyIff` state exactly when. Before it is cut off such a
  line can even run below its end (`ShallowBelowEndIff`, `UndershootsIff`).
- The auction's average price can fall below the minimal price once the proceeds counter saturates
  (`AverageCanFall`); `AuctionSound` states exactly when.
- The documented formula of the exchange's output quote has a fee, which the code does not use, and even
  without a fee it rounds up where the code rounds down (`DocumentedQuote`).
- A full Merkle tree accepts further leaves and overwrites its own with hashes of them; `StoredRootAlways`
  gives the root after any number of insertions.

## Model

| member | source | states |
|---|---|---|
| TokenBucket.TokenBucket.constructor | rate-limiter/src/token_bucket.rs:21-28 | a new bucket is full, owes nothing and satisfies the invariant |
| TokenBucket.TokenBucket.CalculateDelay | rate-limiter/src/token_bucket.rs:38-43 | the delay is the saturated debt over the rate and fits 64 bits |
| TokenBucket.TokenBucket.UpdateUnits | rate-limiter/src/token_bucket.rs:45-61 | a refill pays the debt first and then caps what is left |
| TokenBucket.TokenBucket.RateLimit | rate-limiter/src/token_bucket.rs:65-88 | one call is one step of the specification and keeps the invariant, so no subtraction underflows; the clock may only lag where the code does not look at it |
| TokenBucket.RefillKeepsSound | rate-limiter/src/token_bucket.rs:45-61 | a refill keeps available within the rate and the debt zero or above available, and leaves nothing available while debt remains |
| TokenBucket.RateLimitKeepsSound | rate-limiter/src/token_bucket.rs:65-88 | so does every call |
| TokenBucketRuns.TokensConserved | rate-limiter/src/token_bucket.rs:21-92 | in every run, available minus debt equals the initial stock plus all refills minus what the cap discarded minus all requests plus what a saturated debt counter forgot, which is nothing iff no debt exceeded it |
| TokenBucketRuns.RefillExact | rate-limiter/src/token_bucket.rs:45-61 | a refill, with debt or without, brings the balance to the old one plus rate times whole elapsed microseconds over a million, within the burst and the counter |
| TokenBucketRuns.CallBalance | rate-limiter/src/token_bucket.rs:65-88 | a call the stock covers takes its tokens and leaves the clock alone, any other one settles the bucket at what it is worth now less the request |
| TokenBucketRuns.AnswerExact | rate-limiter/src/token_bucket.rs:65-88 | in every run a call goes through iff it is empty or covered by what the bucket is worth, and otherwise gets the time the rate takes to produce what is missing |
| TokenBucketRuns.SpacedNeverDelayed | rate-limiter/src/token_bucket.rs:65-88 | a caller that asks for no more than the burst once a second is never delayed |
| TokenBucketRuns.RequestsCovered | rate-limiter/src/token_bucket.rs:45-88 | in every run in order of time, requests are covered by the burst, the production up to the last refill, the recorded debt and the forgotten one |
| TokenBucketRuns.LittleOwed | rate-limiter/src/token_bucket.rs:38-88 | a caller that waits out its delays never owes more than the rounding residue afterwards, however long the run |
| TokenBucketRuns.ModestCallsFit | rate-limiter/src/token_bucket.rs:38-88 | for such a caller it is enough that single requests are small for no debt or delay ever to saturate |
| TokenBucketRuns.RateBound | rate-limiter/src/rate_limiter.rs:31-51 | whenever a caller that waits out every delay calls again, its earlier requests total at most the burst plus the production over the elapsed time plus the rounding slack, in runs of any length |
| TokenBucketRuns.SlackReached | rate-limiter/src/token_bucket.rs:38-61 | for every rate that is itself a modest request some run uses up that slack in full, also where it is zero |
| TokenBucketRuns.SlackExact | rate-limiter/src/token_bucket.rs:38-61 | the bound holds with a given slack iff it is at least (rate - gcd(rate, 10^6)) / 10^6 rounded up; so with none exactly for the rates that divide a million |
| TokenBucketRuns.DebtClearedIff | rate-limiter/src/token_bucket.rs:45-61 | after a wait the debt is gone iff the rate has produced it by then |
| TokenBucketRuns.DelayClearsDebt | rate-limiter/src/token_bucket.rs:38-61 | no shorter wait than the returned delay clears the debt, the delay itself does iff its product did not saturate and its division was exact, and every longer wait does unless the product saturated |
| SessionBoundaries.BoundariesPartitionBlocks | finality-aleph/src/session.rs:40-52 | a block lies between a session's first and last block iff it is the session computed for it, and consecutive sessions adjoin |
| SharedSessionMap.SharedSessionMap.Update | finality-aleph/src/session_map.rs:192-212 | everyone waiting is answered and removed, the data is stored, and what it replaced is returned |
| SharedSessionMap.SharedSessionMap.PruneBelow | finality-aleph/src/session_map.rs:214-219 | sessions and waiting subscriptions below the bound are dropped and no others |
| SharedSessionMap.SharedSessionMap.SubscribeToInsertion | finality-aleph/src/session_map.rs:231-249 | a subscription is answered at once if the data is there and queued otherwise |
| SharedSessionMap.PendingStep | finality-aleph/src/session_map.rs:192-249 | one locked operation moves a waiting subscription as the reference says: answered by an update of its session, closed by a pruning above it, unaffected otherwise |
| SharedSessionMap.SettledForever | finality-aleph/src/session_map.rs:192-249 | a subscription once answered or closed is never sent to or queued again |
| SharedSessionMap.SubscriptionFate | finality-aleph/src/session_map.rs:192-249 | under every interleaving each subscription ends as the reference says: answered once with the data present or first inserted, waiting with its session absent, or dropped by a pruning above it |
| SharedSessionMap.FatesExclude | finality-aleph/src/session_map.rs:192-249 | the three outcomes exclude each other and the delivered data is unique |
| SessionMapUpdater.FollowHandlesOnce | finality-aleph/src/session_map.rs:361-383 | however notifications arrive, every session up to the highest one reached is handled once and in order |
| SessionMapUpdater.BatchingInsensitive | finality-aleph/src/session_map.rs:361-383 | a list of notifications, repeated, skipping or out of order, has the effect of its maximum alone |
| SessionMapUpdater.PanicsIff | finality-aleph/src/session_map.rs:284-383 | the updater panics iff the provider lacks the current session or the successor of a handled one; gaps further back are harmless |
| SessionMapUpdater.CatchUpFillsWindow | finality-aleph/src/session_map.rs:318-359 | catch-up leaves exactly the known sessions of the last ten, the current one and the next |
| SessionMapUpdater.CatchUpExact | finality-aleph/src/session_map.rs:318-359 | after catch-up a session is in the map iff it is the next one, or the current one or one of the nine before it and the provider knows it at its first block, and it has the provider's answer |
| SessionMapUpdater.HandleMovesWindow | finality-aleph/src/session_map.rs:284-309 | handling a session moves the window by one session and prunes it when due |
| SessionMapUpdater.MapIsWindow | finality-aleph/src/session_map.rs:318-383 | after any run, interleaved with any subscriptions, the map is exactly the window and has at most 21 entries |
| SessionMapUpdater.MapAgreesWithTable | finality-aleph/src/session_map.rs:318-383 | with a provider that answers every block from one table of sessions, the map agrees with it from the ninth session before catch-up, or from ten below the last multiple of ten once that is pruned, and only sessions before catch-up that the provider no longer knew are missing |
| SessionMapUpdater.FutureSubscription | finality-aleph/src/session_map.rs:231-383 | a subscription beyond the session after the last handled is never dropped and is answered by the step that handles its predecessor |
| SessionMapUpdater.SessionMapUpdater.constructor | finality-aleph/src/session_map.rs:269-276 | the updater starts with an empty shared map |
| SessionMapUpdater.SessionMapUpdater.HandleFirstBlockOfSession | finality-aleph/src/session_map.rs:284-309 | performs the specified operations and reports the panic |
| SessionMapUpdater.SessionMapUpdater.CatchUpWith | finality-aleph/src/session_map.rs:318-359 | the catch-up loop performs the specified operations |
| SessionMapUpdater.SessionMapUpdater.HandleRange | finality-aleph/src/session_map.rs:377-379 | the loop over missed sessions handles each in turn |
| SessionMapUpdater.SessionMapUpdater.HandleUpTo | finality-aleph/src/session_map.rs:371-381 | a notification is ignored when its session was reached, and otherwise handled up to it |
| SessionMapUpdater.SessionMapUpdater.FollowNotifications | finality-aleph/src/session_map.rs:364-382 | the main loop is the specified run over all notifications |
| SessionMapUpdater.SessionMapUpdater.RunUpdater | finality-aleph/src/session_map.rs:361-383 | catch-up followed by the main loop is the specified run |
| Psp22.TransferConserves | contracts/simple_dex/lib.rs:510-519 | a token transfer conserves the supply |
| Psp22.TransferFromConserves | contracts/simple_dex/lib.rs:524-537 | so does a transfer on somebody's behalf |
| Psp22.MintAndBurnSupply | contracts/game_token/lib.rs:56-78 | minting and burning change the supply by the amount |
| SimpleDex.QuoteKeepsProduct | contracts/simple_dex/lib.rs:493-507 | an output quote does not let the product of the two balances shrink and empties the pool only if it held none of the token paid in |
| SimpleDex.SameTokenQuote | contracts/simple_dex/lib.rs:493-507 | swapping a token for itself never costs the pool anything |
| SimpleDex.QuoteExact | contracts/simple_dex/lib.rs:476-507 | an input buys at least a given output iff it is at least the input quote, or one more when the quote's division left a remainder |
| SimpleDex.QuoteBackAtMost | contracts/simple_dex/lib.rs:594-628 | quoting back what an input bought succeeds iff the pool holds both tokens, and never asks for more than that input |
| SimpleDex.DocumentedQuote | contracts/simple_dex/lib.rs:456-473 | without a fee the documented formula exceeds the code's quote by one unit iff the division leaves a remainder, and otherwise equals it |
| SimpleDex.RoundTripNeverPays | contracts/simple_dex/lib.rs:631-647 | swapping there and back never returns more than was paid |
| SimpleDex.SplittingNeverPays | contracts/simple_dex/lib.rs:493-507 | any list of same-direction swaps yields no more than one swap of the total |
| SimpleDex.SwapMovesPool | contracts/simple_dex/lib.rs:209-263 | a successful swap adds the input to the pool, takes the quoted output, at least the caller's minimum, and touches no other token |
| SimpleDex.SwapMovesBalances | contracts/simple_dex/lib.rs:239-248 | the caller alone pays the input and receives the output, out of the allowance given to the exchange; nobody else's balance or allowance changes |
| SimpleDex.QuoteDefinedIff | contracts/simple_dex/lib.rs:493-507 | an output quote exists iff nothing overflows and the divisor is not zero |
| SimpleDex.SwapSucceedsIff | contracts/simple_dex/lib.rs:209-263 | a swap succeeds iff the exchange runs, offers the pair in that direction and can compute the quote, the input is allowed and owned, and the minimum is within the quote |
| SimpleDex.SwapErrors | contracts/simple_dex/lib.rs:209-263 | each error names a condition that really fails |
| SimpleDex.SwapConserves | contracts/simple_dex/lib.rs:245-248 | a swap conserves every token's supply |
| SimpleDex.SimpleDex.Swap | contracts/simple_dex/lib.rs:209-263 | the sequence of checks and transfers has the specified result, and every error restores the ledgers |
| SimpleDex.SimpleDex.InputFor | contracts/simple_dex/lib.rs:438-454 | the quoted input separates inputs that buy less from inputs that buy enough; errors only when the pool would be emptied or the product overflows |
| DexRuns.SwapKeepsProduct | contracts/simple_dex/lib.rs:209-263 | one swap keeps all listed balances positive and their product from shrinking |
| DexRuns.RunKeepsProduct | contracts/simple_dex/lib.rs:209-263 | so does every run of swaps, transfers, approvals, changes of the offered pairs and halts over any number of tokens |
| DexRuns.NoFreeLunch | contracts/simple_dex/lib.rs:209-263 | no run leaves the pool with no more of any token and less of some token |
| DexRuns.EmptySideDrains | contracts/simple_dex/lib.rs:493-507 | positive balances are needed: one unit paid into an empty side buys the whole other side |
| DexRuns.RunConserves | contracts/simple_dex/lib.rs:209-263 | every run conserves the supply of every token |
| MerkleTree.RootOfChildren | contracts/poseidon_host_bench/lib.rs:50-57 | the root over the leaves below a node is the hash of its children's roots |
| MerkleTree.ClimbSettles | contracts/poseidon_host_bench/lib.rs:50-57 | the loop up one path brings every node on it to its meant value and disturbs none off it |
| MerkleTree.PutKeepsTree | contracts/poseidon_host_bench/lib.rs:47-60 | writing any slot, new or old, and rewriting one path keeps every node the recursive root over the leaves below it |
| MerkleTree.InsertKeepsTree | contracts/poseidon_host_bench/lib.rs:47-60 | after an insertion every node of the tree is the recursive root over the leaves below it, with the new leaf last |
| MerkleTree.StoredRoot | contracts/poseidon_host_bench/lib.rs:43-60 | after any number of insertions up to capacity, the stored root is the recursive root of the leaf list |
| MerkleTree.InnerNode | contracts/poseidon_host_bench/lib.rs:43-60 | an inner node is the hash of its children if a leaf lies below it and the default otherwise |
| MerkleTree.LeafSlot | contracts/poseidon_host_bench/lib.rs:43-60 | the leaf slots hold the leaves in order and the default after them |
| MerkleOverflow.FirstLeafSurvivesIff | contracts/poseidon_host_bench/lib.rs:47-60 | an insertion leaves the first leaf alone iff the tree had room or the overwriting hash equals it |
| MerkleOverflow.OverflowStep | contracts/poseidon_host_bench/lib.rs:47-60 | the j-th value past capacity overwrites leaf j/2 with the hash of the pair it belongs to, and the tree is the tree over the leaves so replaced |
| MerkleOverflow.PairsRoot | contracts/poseidon_host_bench/lib.rs:50-57 | hashing the leaves of a full tree in pairs first does not change its root |
| MerkleOverflow.TreeDoubles | contracts/poseidon_host_bench/lib.rs:47-60 | with twice as many further values as leaves the storage is a tree one level higher over these values alone |
| MerkleOverflow.StoredRootAlways | contracts/poseidon_host_bench/lib.rs:43-60 | the stored root after any number of insertions, within capacity and past it |
| MerkleTree.PoseidonTree.constructor | contracts/poseidon_host_bench/lib.rs:18-31 | a new tree holds exactly its first leaf |
| MerkleTree.PoseidonTree.CreateNewLeaf | contracts/poseidon_host_bench/lib.rs:47-60 | the write and the loop are the specified insertion within 32-bit indices, the storage stays a correct tree with the new leaf last, and the call traps without effect iff the leaf counter overflows |
| Marketplace.UndefinedIff | contracts/marketplace/lib.rs:469-485 | the price line divides by zero iff it is flat or rising and the block lies strictly inside it |
| Marketplace.SteepNearLine | contracts/marketplace/lib.rs:478-480 | a steep line is never below the exact line and above it by less than the elapsed blocks |
| Marketplace.ShallowNearLine | contracts/marketplace/lib.rs:481-484 | a shallow line is less than one above the exact line |
| Marketplace.ShallowPrice | contracts/marketplace/lib.rs:481-484 | a shallow line drops one unit per whole number of blocks the length is of the drop, down to zero |
| Marketplace.ShallowNotFarBelow | contracts/marketplace/lib.rs:481-484 | it is below the exact line by at most one remainder of the two spans per unit dropped |
| Marketplace.ShallowBelowEndIff | contracts/marketplace/lib.rs:481-484 | before it is cut off a shallow line is below its end iff the end is above zero and the block is late enough for the rounded slope to have dropped one unit too many |
| Marketplace.UndershootsIff | contracts/marketplace/lib.rs:469-485 | some block of a falling line is below its end iff the line is shallow, ends above zero and its length modulo its drop exceeds its length over its drop |
| Marketplace.ShallowUndershoots | contracts/marketplace/lib.rs:481-484 | an instance: five blocks from four down to one |
| Marketplace.MinimumReachedIff | contracts/marketplace/lib.rs:402-414 | inside the line the charged price is the minimum iff the line is shallow and the rounded slope has dropped all of it |
| Marketplace.ReachedEarlyIff | contracts/marketplace/lib.rs:6-8 | the minimum is reached before the documented last block iff the line is shallow and its length is not a multiple of its drop |
| Marketplace.AuctionAtMinimumIff | contracts/marketplace/lib.rs:402-414 | a running auction charges the minimum iff it is over or its shallow line has dropped all of it |
| Marketplace.PriceDescends | contracts/marketplace/lib.rs:402-414 | across all four branches the clamped price does not rise with the block |
| Marketplace.SalesKeepCovered | contracts/marketplace/lib.rs:307-361 | every run of purchases and restarts keeps the proceeds at or above the minimal price of all tickets, as long as that fits the counter |
| Marketplace.PriceSound | contracts/marketplace/lib.rs:402-414 | with the average at or above the minimum, the start price exceeds it, the price is defined and lies between them |
| Marketplace.AuctionSound | contracts/marketplace/lib.rs:156-189 | set up properly, in every run the average stays at or above the minimum iff the minimal price of all tickets fits the counter, and then every price is sound |
| Marketplace.AverageCanFall | contracts/marketplace/lib.rs:327-330 | beyond the counter the average does fall below the minimum |
| Marketplace.AuctionDescends | contracts/marketplace/lib.rs:402-414 | between two sales the charged price only falls |
| Marketplace.NextAuctionPrice | contracts/marketplace/lib.rs:327-361 | right after a sale or a restart the price is the average over all sales times the multiplier, or the minimum if that is higher |
| Marketplace.FirstAuctionPrice | contracts/marketplace/lib.rs:156-189 | the first auction starts at the starting price rounded down to a multiple of the multiplier, or the minimum |
| ButtonGame.MapDomainInRange | contracts/button/lib.rs:654-672 | a score within its domain is mapped into the reward range even when the product saturates |
| ButtonGame.MapDomainExact | contracts/button/lib.rs:654-672 | the mapping is the straight line through the ends of the two ranges, rounded down, up to where the product saturates |
| ButtonGame.MapDomainEnds | contracts/button/lib.rs:654-672 | a zero score earns the least, and a full one the most unless the product saturates |
| ButtonGame.MapDomainMonotone | contracts/button/lib.rs:654-672 | a higher score never earns less |
| ButtonGame.RewardByBlock | contracts/button/lib.rs:84-94 | on a live button the early-bird reward does not rise and the late reward does not fall with the block, and the third mode pays the minimal reward times the number of the press at any block |
| ButtonGame.TimedRewardExact | contracts/button/lib.rs:290-303 | a timed reward is proportional to the blocks left or waited, from the least at one end of the lifetime to the highest at the other |
| ButtonGame.RewardDefinedIff | contracts/button/lib.rs:666-668 | a reward is undefined iff the button is timed and has no lifetime |
| ButtonGame.PressEffect | contracts/button/lib.rs:273-332 | when a press succeeds, whose ticket it takes, whose balance it rewards, and that the button then lives for another lifetime |
| ButtonGame.PayEffect | contracts/button/lib.rs:359-363 | the Pressiah's pay is possible iff the button is dead, and goes to the last presser alone |
| ButtonGame.ResetEffect | contracts/button/lib.rs:340-351 | when a reset succeeds, that all the game's tickets go to the marketplace, the Pressiah is paid, the auction restarts at that block and a live round opens |
| ButtonGame.BuyEffect | contracts/marketplace/lib.rs:307-344 | when a purchase succeeds, that the buyer's price is burnt and the ticket is the buyer's |
| ButtonGame.MessageErrors | contracts/button/lib.rs:273-363 | each error of the four messages names a condition that really fails |
| ButtonGame.GameChain.constructor | contracts/button/lib.rs:465-500 | a new game is in its first round with no presses |
| ButtonGame.GameChain.PressButton | contracts/button/lib.rs:273-332 | a press takes a ticket, mints the reward and updates the round, or fails without effect |
| ButtonGame.GameChain.DoRewardPressiah | contracts/button/lib.rs:518-535 | the last presser gets half the round's rewards and is then forgotten |
| ButtonGame.GameChain.RewardThePressiah | contracts/button/lib.rs:359-363 | only after the deadline |
| ButtonGame.GameChain.Reset | contracts/button/lib.rs:340-351 | after the deadline the Pressiah is paid, all tickets go to the marketplace, its auction restarts and a new round begins |
| ButtonGame.GameChain.Buy | contracts/marketplace/lib.rs:307-344 | a purchase burns the current price, hands over a ticket and restarts the auction, or fails without effect |
| GameRuns.PlayKeepsRounds | contracts/button/lib.rs:273-363 | every run keeps finished rounds settled, later rounds untouched and the current one unpaid while the button lives |
| GameRuns.PressiahPaidOnce | contracts/button/lib.rs:502-535 | each finished round paid its last presser once, half of that round's press rewards rounded down; the running total is the sum over the round's presses |
| GameRuns.TimedRewardInRange | contracts/button/lib.rs:585-597 | on a live button a timed score is within the lifetime, so its reward is within range |
| GameRuns.TimedRewards | contracts/button/lib.rs:273-332 | in every run with non-decreasing blocks all timed rewards lie between the minimal and the maximal reward |
| GameRuns.SaturatedRewardFails | contracts/button/lib.rs:305-318 | a reward that saturated cannot be booked |
| GameRuns.PressiahSeries | contracts/button/lib.rs:305-318 | in the third scoring mode the total after n presses is the minimal reward times n(n+1)/2, with no assumption on saturation |
| GameRuns.BooksBalance | contracts/button/lib.rs:273-351 | across every interleaving tickets are constant, the game holds one per press since the last reset plus tickets sent to it, the reward supply is initial plus mints minus payments, and the auction's counters are their seeds plus the sales |
| GameRuns.RewardBalances | contracts/button/lib.rs:308-310 | in every run each account's reward tokens are those it had plus its press rewards and its pay as Pressiah, minus the prices it paid, plus what players paid each other |
| GameRuns.PlayKeepsAuction | contracts/marketplace/lib.rs:307-344 | every run of game and auction keeps the proceeds covering the minimal price |
| GameRuns.PurchaseSound | contracts/marketplace/lib.rs:307-344 | whatever was played before, a purchase burns a price between the minimum and the auction's start and within the caller's limit |
| Quorum.QuorumsOverlap | finality-aleph/src/crypto.rs:108-131 | two complete signature sets share at least one more node than can be faulty |
| Quorum.CompleteIff | finality-aleph/src/crypto.rs:108-131 | a signature set is complete iff it has more than two thirds of the authorities and every signature checks under the key of the node it is filed under |
| Quorum.NoConflictingQuorums | finality-aleph/src/crypto.rs:108-131 | with at most the tolerated number of faulty nodes, two messages no honest node signs both of are not both complete |
| Quorum.HonestQuorumCompletes | finality-aleph/src/crypto.rs:119-131 | valid signatures of all but the tolerated number of nodes complete a message |
| Quorum.ThresholdLeast | finality-aleph/src/crypto.rs:119-121 | a quorum size is safe iff it reaches the threshold, or is one below it and three divides the number of authorities |
| Quorum.NothingCompleteAlone | finality-aleph/src/crypto.rs:119-131 | without authorities nothing is complete |
| MultisigParty.PartyCanonical | aleph-client/src/pallets/multisig.rs:166-188 | a party is made iff the threshold is between two and the number of different signatories, lists them strictly sorted, and otherwise the matching error is returned |
| MultisigParty.PartyIndependentOfOrder | aleph-client/src/pallets/multisig.rs:157-165 | order and repetitions in the list do not matter |
| MultisigParty.BinarySearchFinds | aleph-client/src/pallets/multisig.rs:610 | the search finds an account iff the party has it |
| MultisigParty.CoSignersCorrect | aleph-client/src/pallets/multisig.rs:605-617 | there is a co-signer list iff the signer is a member, and it is the party without the signer, strictly sorted |
| MultisigContext.ApprovalKeepsPhase | aleph-client/src/pallets/multisig.rs:324-331 | an approval closes the context only with a call and a met threshold, and otherwise leaves it open and below the threshold if it has a call |
| MultisigContext.UsesKeepPhase | aleph-client/src/pallets/multisig.rs:515-595 | every run of approvals and cancellations, successful or not, keeps party, author and hash, and only adds approvers |
| MultisigContext.ContextStaysFaithful | aleph-client/src/pallets/multisig.rs:434-595 | from any party and start, approvers are members including the author, a stored call matches the hash, the timepoint and an unchanged weight limit are those given, an open context with a call is below the threshold, closing by approval implies a call and a met threshold, cancelling is the author's |
| MultisigContext.StartedIff | aleph-client/src/pallets/multisig.rs:434-513 | a context is started iff the signer is a member and the chain accepts, with the author as only approver and everything else as given |
| MultisigContext.WeightFollows | aleph-client/src/pallets/multisig.rs:308-310 | the weight limit changes only on demand and only while the context is open |
| MultisigContext.BoundBrokenIff | aleph-client/src/pallets/multisig.rs:264-268 | an approval leaves a context, open or closed, past the documented bound iff it was past it or a new member meets the threshold, and that context is open iff no call is stored |
| MultisigContext.BoundBrokenWithCallIff | aleph-client/src/pallets/multisig.rs:534-570 | the same for an approval with a call, which succeeds iff the signer is a member and the call agrees, and closes the context iff it is past the bound |
| MultisigContext.BoundBrokenInRun | aleph-client/src/pallets/multisig.rs:434-595 | from either start and in every run, the context ends past the bound iff the author and the members whose approvals count before a cancellation reach the threshold, and is closed by approval iff besides a call was agreed on |
| MultisigContext.BoundBroken | aleph-client/src/pallets/multisig.rs:264-268 | two of three members approving a hash break it in an open context, and approving a call in a closed one |
| MultisigContext.BoundHoldsWithCall | aleph-client/src/pallets/multisig.rs:264-268 | once a call is stored the bound holds for as long as the context is open |
| MultisigContext.CallStaysStored | aleph-client/src/pallets/multisig.rs:534-570 | a stored call is never replaced |
| MultisigContext.OngoingContext.constructor | aleph-client/src/pallets/multisig.rs:284-302 | a new context has its author as only approver |
| MultisigContext.OngoingContext.ChangeMaxWeight | aleph-client/src/pallets/multisig.rs:308-310 | changes the weight limit and nothing else |
| MultisigContext.OngoingContext.StoreCall | aleph-client/src/pallets/multisig.rs:313-320 | stores a call iff its hash is the registered one |
| MultisigContext.OngoingContext.RegisterApproval | aleph-client/src/pallets/multisig.rs:324-331 | adds the approver and reports whether the aggregation is closed |
| Aggregator.OrderKept | aggregator/src/aggregator.rs:50-81 | under every interleaving the emitted hashes followed by the queue are the started hashes in order of first start, each once |
| Aggregator.LatestStored | aggregator/src/aggregator.rs:63-66 | for a hash not yet emitted the stored signature is the latest received, however early |
| Aggregator.StoredAreUnused | aggregator/src/aggregator.rs:63-81 | after any interleaving the stored signatures are exactly the latest ones received and not yet handed out |
| Aggregator.EmittedCarryLatest | aggregator/src/aggregator.rs:68-81 | every emission carries the latest signature received for its hash before the pop |
| Aggregator.EmittedOnce | aggregator/src/aggregator.rs:68-81 | no hash is emitted twice |
| Aggregator.ReadyHashesLeave | aggregator/src/aggregator.rs:68-81 | if the first k queued hashes have signatures, the next k pops emit them in order |
| Aggregator.ReadyHashesLeaveInRun | aggregator/src/aggregator.rs:50-81 | after any interleaving, if signatures were received for the first k queued hashes, the next k pops emit them in order with their latest signatures |
| Aggregator.BlockSignatureAggregator.constructor | aggregator/src/aggregator.rs:40-48 | starts empty |
| Aggregator.BlockSignatureAggregator.OnStart | aggregator/src/aggregator.rs:50-61 | queues a hash at its first start and reports repetitions |
| Aggregator.BlockSignatureAggregator.OnMultisignedHash | aggregator/src/aggregator.rs:63-66 | stores the signature over any earlier one |
| Aggregator.BlockSignatureAggregator.TryPopHash | aggregator/src/aggregator.rs:68-81 | takes the front hash with its signature, or leaves everything as it was |
| Aggregator.BlockSignatureAggregator.NextMultisignedHash | aggregator/src/aggregator.rs:203-224 | takes in no more signatures than the front hash needs, and gives up only when they run out |

## Left out

- TokenBucket.TokenBucket.RateLimit: a rate of zero is excluded for non-empty requests, because the division in the delay then panics; a clock before the last update is excluded exactly where the code asserts against it.
- TokenBucketRuns.RateBound: requests whose delay would saturate a 64-bit product are excluded; the condition is on each request, not on the run.
- TokenBucketRuns.LittleOwed: the same for debts whose delay would saturate.
- TokenBucketRuns.ModestCallsFit: the same for requests.
- TokenBucketRuns.SlackReached: rates whose full burst would itself be too large a request in that sense are excluded, because the run goes into a debt of up to the rate.
- TokenBucketRuns.SlackExact: the same rates are excluded.
- Psp22.TransferConserves: the token contracts are plain ledgers; hooks and the 128-bit limit of their balances are not modelled.
- Psp22.TransferFromConserves: the same.
- Psp22.MintAndBurnSupply: the same; neither are the roles required for minting and burning.
- DexRuns.RunKeepsProduct: withdrawals of liquidity during the run are not modelled.
- GameRuns.BooksBalance: changing the game's or the auction's parameters in the middle of a run is not modelled.
- MerkleOverflow.StoredRootAlways: the number of insertions is unbounded; the 32-bit limit is in the contract object only.
- SimpleDex.DocumentedQuote: the documented formula with a fee is not compared further, because the code has none.
- MultisigParty.PartyCanonical: the sort and the removal of duplicates are modelled by their results on values, not in place.
- MultisigContext.UsesKeepPhase: a failed call leaves the caller with the context it passed in, as for a caller that kept a copy; the original consumes the context.
- SessionMapUpdater.MapIsWindow: session and block numbers are unbounded, so the 32-bit overflow of the last sessions is not modelled.
- Sends to receivers that were dropped: a send on a one-shot channel counts as delivered whether or not somebody still listens.
- The authority provider's lookup of runtime data, with its fallback between runtime calls, is a parameter.
- Access control, halting, code upgrades, termination and event payloads of the contracts are guards around the modelled messages.
- The aggregator's metrics, status reports and network plumbing around reliable multicast.
- The networking stack (clique), the rest of the client library, the forking tool, the flooder and the test drivers: sockets, remote calls and wrappers.
- Cryptography (signatures, Poseidon, Blake2, SS58): parameters only.
