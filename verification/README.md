# Purse and Pingpong, modelled and proved

Purse runs paid contests: users stake credits or points into a contest's escrow, scores
arrive, and the pool is settled to wallets behind a payout hash. Pingpong is a season
ladder that uses Purse for its pot. This project models the parts of both where a mistake
would lose money, ranks or trust, and proves what they promise over every input and every
run.

- **The contest engine** (`Contests`, `ContestInvariant`, `ContestSteps`,
  `ContestSettlement`, `ContestVoid`, `ContestRuns`, `ContestTheorems`,
  `ContestLifecycle`, `ContestLimits`, `ContestScenarios`) is a state machine over the rows
  the engine keeps: contests with participants, score rows and results, a double-entry
  journal from which every balance is derived, the idempotency records, and the eligibility
  decisions. One step is one request with its transaction, committed whole or not at all. A
  run is any sequence of requests and of postings made outside contests, from the empty
  database.
- **What each request does, written out** (`ContestDefinition`, `ContestOutcomes`,
  `ContestScores`, `ContestMoney`, `ContestResults`) says, for every reachable state, exactly
  when each request succeeds and what it leaves, in the fields of rows, the clock and the
  balances, without the functions the state machine is made of.
- **The same operations on mutable rows** (`PurseLoops`, `PurseStore`) follow the source's
  shape: a class whose methods overwrite rows, append to the journal, loop over payouts and
  refunds, and roll back. Each is proved equal to the state machine's step.
- **The ledger, the eligibility rules and the settlement engine** (`Ledger`,
  `LedgerOutcomes`, `Eligibility`, `EligibilityMeaning`, `Settlement`, `SettlementEngine`,
  `SettlementTheorems`, `SettlementMeaning`) are the ones the repository contains, not stand-ins: the engine's results rest on what is proved here
  about `postEntry`, `evaluate` and `settle`.
- **Locks** (`Locks`) holds the locks every contest transaction takes, in its order, and
  the interleavings of any number of them.
- **The ladder** (`Ladder`, `LadderTheorems`, `LadderMatches`, `LadderOutcomes`,
  `LadderStore`) is the rank
  arithmetic, the season's challenge, report, confirm, reject and decline steps with any
  number of matches open, and the row updates that carry them out.
- **The embed handshake** (`Protocol`, `Embedding`, `Handshake`, `HandshakeSteps`,
  `HandshakeTheorems`, `HandshakeStrays`, `HandshakeReads`, `HandshakeEnds`,
  `EmbedClients`) is both ends of the frame
  protocol, a world in which messages are delivered late, again, out of order or not at
  all, documents reload, pages remount and strangers post, and the two classes that
  implement the ends.
- **Codecs and a cache** (`Texts`, `CanonicalJson`, `CanonicalJsonParser`,
  `CanonicalJsonTheorems`, `CanonicalJsonMeaning`, `Utf8`, `Attestation`, `Webhooks`, `WebhookTheorems`,
  `ProbeCache`).

Identifiers are numbers, since only equality and order are used. Times, minted nonces,
identifiers of new rows, user profiles and rulesets are parameters of each request. Scores
are reals, of which only order is used; amounts are unbounded integers, and the 64-bit
limit of a ledger amount is written out where the source checks it.

Every lemma carries `{:induction false}`: the proofs are the ones written, and no
hypothesis is supplied behind the reader's back.

## What the code does that its documentation does not say

- `load.ts:37-40` says an operation locks its account rows in one statement. A settlement
  with a rake takes them in two (`settlement.ts:186-229`). `Locks.SettleOrdered` shows the
  two batches keep the order all the same.
- A ledger amount above 2^63 - 1 is refused, so a settlement whose net pool is larger never
  commits: `ContestScenarios.CloseFitsIff` states exactly when, and
  `ContestScenarios.LargePoolReached` reaches such a pool from the empty database. The
  contest can still be voided.
- `signWebhook` signs any timestamp, but the parser reads at most twelve digits:
  `WebhookTheorems.HeaderRoundTrip` and `WebhookTheorems.SignedVerifies` state both sides.
- The velocity window is judged by the application's clock and counted by the ledger's.
  In every run the limit bounds exactly the windows shorter by what the first may be ahead
  (`ContestLimits.SlidingWindow`, `ContestScenarios.WindowExact`); so it holds on its own
  window exactly when the judging clock is never ahead, and one millisecond is enough to
  break it (`ContestScenarios.LimitHoldsIff`). A window is open at its start, so a stake
  exactly 24 hours old no longer counts.
- `ProbeCache.reset` does not stop a load in flight, so what a load begun before a reset
  finds can be remembered and served after it: exactly when one was unfinished at the reset
  (`ProbeCache.ResetForgetsIff`, `ProbeCache.OldValueServed`).

## Model

| member | source | states |
|---|---|---|
| ContestTheorems.EscrowConservation | apps/purse/src/contests/settlement.ts:171-252 | In every reachable state a contest's escrow holds entry amount times active participants while it is open, locked, in progress or awaiting settlement, and zero in draft and every finished state; active participants never exceed the maximum; no committed state is `settling` |
| ContestTheorems.NeverOverdrawn | apps/purse/src/ledger/post.ts:72-78 | In every run no wallet and no escrow is ever below zero, and every journal entry is balanced and well formed |
| ContestTheorems.CustodyConserved | apps/purse/src/ledger/post.ts:80-198 | No contest request changes the total held in wallets, escrows and fee accounts |
| ContestTheorems.UserAccounting | apps/purse/src/contests/settlement.ts:359-396 | Over any number of withdrawals and re-entries a contest changes a user's wallet by nothing if it was voided or they are out, by payout less stake if it settled, and by the stake while it is live |
| ContestTheorems.VoidAlwaysRefunds | apps/purse/src/contests/settlement.ts:359-396 | Whatever ran before, a void the transition table allows succeeds: one refund per active participant, an empty escrow, and nobody's wallet changed by the contest |
| ContestTheorems.OneCountingRow | apps/purse/src/contests/scores.ts:113-165 | A user's score rows form one chain in submission order: exactly one counts, it is their last, and every earlier one was not finished and is superseded by the very next row of the same user |
| ContestTheorems.FinishedIsFinal | apps/purse/src/contests/scores.ts:113-165 | A finished score row is never superseded or changed by anything that runs later |
| ContestTheorems.CompleteMovesOn | apps/purse/src/contests/scores.ts:194-235 | With somebody entered and every entered result finished, an automatic contest is settled and an operator-closed one is awaiting settlement, settled or voided |
| ContestTheorems.SettledOnce | apps/purse/src/contests/settlement.ts:201-230 | In every run a contest has at most one settle entry and at most one fee entry in the journal |
| ContestTheorems.RefusedChangesNothing | apps/purse/src/contests/idempotency.ts:46-80 | A failed or repeated request leaves every row as it was, but for an entry found ineligible, which adds exactly the refused user's decision for that contest; no other failure adds a decision |
| ContestTheorems.ExactlyOnce | apps/purse/src/contests/idempotency.ts:46-80 | After a request succeeds, the same request under its key answers with the same record and changes nothing however much later, and any other request under that key is refused and changes nothing |
| ContestTheorems.RepeatsDoNothing | apps/purse/src/contests/idempotency.ts:46-80 | Deleting from a run every request that repeats an already succeeded one leaves the same final rows |
| ContestTheorems.AfterEvolves | apps/purse/src/contests/create.ts:181-235 | Through any run a contest keeps its owner and asset, its terms once it has left draft and its roster once past open, never rewrites a score row except to supersede it, and never changes at all once finished |
| ContestTheorems.FrozenPreview | apps/purse/src/contests/settlement.ts:171-184 | A close presenting an earlier preview's hash, when it succeeds, records exactly the previewed payouts and posts exactly the previewed rake and payouts, whatever ran in between |
| ContestTheorems.SameHashSameMoney | apps/purse/src/contests/settlement.ts:109-127 | Two reckonings of one contest with equal payout hashes agree on payouts, gross, rake and net, although the rake is not hashed |
| ContestTheorems.SettledInCanonicalOrder | apps/purse/src/settlement/hash.ts:17-24 | The engine's payouts are already in the order the hash is taken over, so the hash fixes the list itself |
| ContestTheorems.SettledPreview | apps/purse/src/contests/settlement.ts:64-107 | A settled contest's preview, rebuilt from result rows and fee lines with the escrow empty, equals the reckoning of its stakes |
| ContestTheorems.SettlementReload | apps/purse/src/contests/settlement.ts:265-280 | At any time after a close the preview reads exactly what the close computed: gross, rake, net, entries, payouts and hash |
| ContestLifecycle.EnterOutcome | apps/purse/src/contests/entries.ts:125-209 | An entry is refused for the state, a lock time at or before now, an active entry, a full contest or the eligibility decision, in that order, and otherwise succeeds: the ledger never refuses an allowed stake |
| ContestLifecycle.EntryMovesStake | apps/purse/src/contests/entries.ts:180-209 | An entry takes the stake from the user's wallet, puts it in the contest's escrow and changes no other balance |
| ContestLifecycle.WithdrawOutcome | apps/purse/src/contests/entries.ts:306-352 | A withdrawal is refused for the state, a lock time at or before now, a stranger or an inactive entry, in that order, and otherwise succeeds: the escrow always covers the returned stake |
| ContestLifecycle.StatesFollowTheTable | apps/purse/src/contests/states.ts:19-79 | The exact state every contest is left in by every request: a failed one changes no contest, a successful one only the contest it names; scores move it exactly when they complete the results, to settled under auto and otherwise to awaiting settlement; every other move is along one of the listed transitions and made by no user, and out of an operator-closed wait only by an operator |
| ContestLimits.SlidingWindow | apps/purse/src/eligibility/evaluate.ts:107-113 | In every run under one ruleset whose judging clock is at most a skew ahead of the ledger's, no 24-hour and no 7-day window, shortened by the skew, holds more stakes from a wallet than the limit, wherever it ends and across all contests |
| ContestScenarios.WindowExact | apps/purse/src/eligibility/velocity.ts:14-38 | Exactly which windows the limit bounds in every run with advancing clocks: those no longer than the ruleset's window less the skew; for every longer one there is a run from the empty database that exceeds the limit |
| ContestScenarios.LimitHoldsIff | apps/purse/src/eligibility/velocity.ts:14-38 | The limit holds on its own 24-hour or 7-day window in every run exactly when the judging clock is never ahead of the ledger's |
| ContestScenarios.Overspent | apps/purse/src/contests/entries.ts:150-191 | The run that exceeds it: a funded user enters two open contests, each for the whole limit, and the second entry is allowed because the first has left the window the judging clock sees |
| ContestLimits.WindowBounded | apps/purse/src/eligibility/velocity.ts:14-38 | If every stake fitted under the limit with the window behind it when it was posted, no window anywhere holds more than the limit |
| ContestOutcomes.EntryAccepted | apps/purse/src/contests/entries.ts:100-209 | In every reachable state an entry under a new key succeeds exactly when the contest is the caller's and open, now is before any lock time, the user is not in it, it is not full and no rule stands against the stake; a refused one changes no contest and no balance |
| ContestOutcomes.EntryLeaves | apps/purse/src/contests/entries.ts:150-245 | An accepted entry adds one journal entry debiting the wallet and crediting the escrow by the stake, one decision, and the user's row, new or taken up again, pointing at that entry |
| ContestOutcomes.WithdrawalAccepted | apps/purse/src/contests/entries.ts:306-381 | In every reachable state a withdrawal under a new key succeeds exactly when the contest is the caller's and open, now is before any lock time and the user is in it; it marks the row and posts the stake back, and a refused one changes nothing |
| ContestOutcomes.HasPlace | apps/purse/src/contests/load.ts:68-74 | In every reachable contest each user has at most one row, and looking them up finds it |
| ContestOutcomes.MoveAccepted | apps/purse/src/contests/lifecycle.ts:31-56 | In every reachable state a plain move under a new key goes to open from draft, to locked from open, to in progress from locked, to awaiting settlement from in progress and to cancelled from draft, open or locked with nobody active, subject to the actor and the terms, and from nowhere else; nothing but the state changes |
| ContestOutcomes.OutsideMoves | apps/purse/src/ledger/flows.ts:24-143 | What a posting made outside contests does to every balance: points issued and deposits add to the wallet, withdrawals take from it, against the liability or what is held outside |
| ContestMoney.VoidAccepted | apps/purse/src/contests/settlement.ts:359-406 | In every reachable state a void under a new key succeeds exactly when the contest is the caller's, open, locked, in progress or awaiting settlement, and the actor may void it there; the escrow is emptied, everyone active is given back the stake and no other account moves; a refused one changes nothing |
| ContestMoney.CloseAccepted | apps/purse/src/contests/settlement.ts:300-330 | In every reachable state a close under a new key succeeds exactly when the contest is the caller's and awaiting settlement, the actor may settle it, the hash is the preview's and its net pool is at most 2^63 - 1; rows and every account then hold exactly the preview, and a refused one changes nothing |
| ContestMoney.PreviewAmounts | apps/purse/src/contests/settlement.ts:109-127 | In every reachable live or settled contest the previewed gross is the entry amount times those active, the rake is that in basis points rounded down, and the net is the rest |
| ContestDefinition.CreateAccepted | apps/purse/src/contests/create.ts:25-168 | A contest is created under a new key exactly when its terms are ones the schema takes, its external id is new to the tenant and the stake is within the per-contest limit; it is an empty draft with those terms |
| ContestDefinition.UpdateAccepted | apps/purse/src/contests/create.ts:181-235 | In every reachable state an edit under a new key succeeds exactly on the caller's draft with a patch that says something and leaves terms the schema takes; each field is the patch's where it names one and the old one elsewhere |
| ContestScores.ScoresAccepted | apps/purse/src/contests/scores.ts:70-185 | In every reachable state scores under a new key are accepted exactly when the contest is the caller's and in progress or awaiting settlement, each scored user is in it with no finished row, and a settlement they set off fits in 64 bits; the state they leave is exact |
| ContestScores.ScoresKept | apps/purse/src/contests/scores.ts:113-185 | After accepted scores the row the reply names for a submission holds its user, score, finished flag and the request's time and is that user's only counting row; every earlier row keeps all four, and nobody else's is superseded |
| ContestResults.HigherScoreWins | apps/purse/src/settlement/settle.ts:107-147 | In every settled contest one user is placed ahead of another exactly when their counting score is higher, or is there and the other's is not, or at equal scores the seed is lower or the submission earlier under the rule that asks; whoever is ahead is paid no less, and each result shows the score that counted |
| ContestResults.EveryoneHasResult | apps/purse/src/contests/settlement.ts:232-249 | Everyone active in a settled contest has a result, and no two results are of one user |
| ContestResults.CloseNamesEntry | apps/purse/src/contests/settlement.ts:213-249 | After a close each positive result names the settle entry that paid it, and each zero one names none |
| ContestResults.NobodyDisqualified | apps/purse/src/contests/load.ts:60-66 | No run disqualifies anybody: in every reachable contest each participant is entered or withdrawn |
| ContestSettlement.ReckonFacts | apps/purse/src/contests/settlement.ts:109-127 | A valid contest's stakes always divide; the rake is the gross in basis points rounded down, at most the rest, and payouts and hash are those of the net pool |
| ContestSettlement.ReckonPays | apps/purse/src/contests/settlement.ts:109-127 | The payouts are non-negative, one per active participant, and add up to exactly the net pool |
| ContestSettlement.OnlyEntrantsPaid | apps/purse/src/contests/settlement.ts:134-149 | A user who is not an active participant is paid nothing |
| ContestSettlement.SettlementOutcome | apps/purse/src/contests/settlement.ts:171-252 | From awaiting settlement a settlement succeeds exactly when the actor may settle, the presented hash matches and the net pool fits in 64 bits; it then posts and records exactly the reckoning |
| ContestSettlement.SettleDelta | apps/purse/src/ledger/flows.ts:193-216 | A settle entry takes its total from the escrow, gives each wallet its user's payouts and touches no other account |
| ContestSettlement.SettleLinesValid | apps/purse/src/ledger/validate.ts:20-75 | A settle entry over positive payouts is accepted by line validation exactly when its total is at most 2^63 - 1 |
| ContestSettlement.SettledOwed | apps/purse/src/contests/settlement.ts:201-252 | Settling changes what a contest owes each user by exactly their payout |
| ContestSettlement.SettledInv | apps/purse/src/contests/settlement.ts:171-252 | The rows and journal a settlement leaves keep the whole contest invariant |
| ContestVoid.VoidOutcome | apps/purse/src/contests/settlement.ts:359-396 | A void is refused exactly when already voided or not allowed by the table; otherwise every refund posts, in order, and the guard finds the escrow empty |
| ContestVoid.VoidsEach | apps/purse/src/contests/settlement.ts:376-386 | The refund loop posts one reversal per listed participant, in order, and the journal stays sound |
| ContestVoid.VoidedInv | apps/purse/src/contests/settlement.ts:359-396 | The rows and journal a void leaves keep the whole contest invariant |
| ContestRuns.CloseOutcome | apps/purse/src/contests/settlement.ts:300-330 | A close is refused for an already settled contest, the transition check, a stale hash or a pool past 64 bits, in that order, and otherwise settles as reckoned |
| ContestScenarios.CloseFitsIff | apps/purse/src/contests/settlement.ts:300-330 | In every reachable state, an operator's close of a waiting contest under its previewed hash and a new key succeeds exactly when the previewed net pool is at most 2^63 - 1, and otherwise is refused and changes nothing |
| ContestScenarios.LargePoolReached | apps/purse/src/ledger/validate.ts:51-56 | A run from the empty database reaches a contest awaiting settlement whose previewed net pool is above 2^63 - 1 |
| ContestScenarios.LargePoolNeverCloses | apps/purse/src/contests/settlement.ts:213-230 | There every operator's close under the previewed hash is refused with the ledger's amount error and changes nothing |
| ContestScenarios.LargePoolRefusesScores | apps/purse/src/contests/scores.ts:215-235 | Under automatic settlement the scores that would complete such a contest are refused for the same reason and change nothing |
| ContestRuns.StepKeeps | apps/purse/src/contests/idempotency.ts:46-80 | Every request keeps the database invariant, and journal and request records only grow |
| ContestRuns.AfterKeeps | apps/purse/src/contests/idempotency.ts:46-80 | The database invariant holds after every sequence of requests and outside postings |
| ContestSteps.ScoresLinked | apps/purse/src/contests/scores.ts:113-165 | Inserting a batch and superseding earlier rows keeps each user's history one linear chain |
| Ledger.PostKeeps | apps/purse/src/ledger/post.ts:80-198 | Posting only appends, keeps every entry balanced, keeps keys unique and never lets a wallet or an escrow go below zero |
| Ledger.CoveredStaysSolvent | apps/purse/src/ledger/post.ts:292-314 | Refusing overdrafts is enough: an entry that overdraws nobody leaves every protected balance non-negative |
| Ledger.MirrorDelta | apps/purse/src/ledger/post.ts:321-352 | A reversal's mirrored lines undo the original on every account |
| Ledger.CustodyTotalMeans | apps/purse/src/ledger/post.ts:72-78 | The custody total is the sum of the balances of the wallets, escrows and fee accounts |
| Eligibility.AllowedIff | apps/purse/src/eligibility/evaluate.ts:71-126 | An entry is allowed exactly when no reason applies, and a refusal reports exactly the reasons that do |
| Eligibility.AddFundsOnlyForFunds | apps/purse/src/eligibility/evaluate.ts:48-62 | The advice to add funds is given exactly when the shortfall is the only reason |
| Eligibility.Evaluate | apps/purse/src/eligibility/evaluate.ts:71-126 | The imperative evaluator, which accumulates reasons in a set, returns the decision the specification gives |
| Eligibility.FindRestrictions | apps/purse/src/eligibility/evaluate.ts:77-80 | The loop finds exactly the reasons of the restrictions in force |
| Eligibility.FindLimits | apps/purse/src/eligibility/evaluate.ts:107-113 | The stake and velocity checks find exactly the limits exceeded |
| LedgerOutcomes.RefusedFor | apps/purse/src/ledger/validate.ts:36-80 | Lines are refused for being too few, for the first amount out of range, for mixing assets or for not balancing, in that order, and otherwise accepted |
| LedgerOutcomes.PostAccepted | apps/purse/src/ledger/post.ts:80-198 | Under a new key an entry is taken exactly when its lines are good, a reversal mirrors an unreversed entry of the same tenant, its accounts are the tenant's and it leaves no wallet or escrow below zero; it is then the one entry appended |
| LedgerOutcomes.PostRepeated | apps/purse/src/ledger/post.ts:80-130 | Under a used key the entry already there is given back if the posting is the same, and otherwise the key is refused; nothing is appended |
| LedgerOutcomes.BalanceIsSum | apps/purse/src/ledger/balance.ts:17-56 | A balance is the sum over all entries and lines of what each does to the account: credits less debits or debits less credits by the account's normal side |
| EligibilityMeaning.DecisionMeans | apps/purse/src/eligibility/evaluate.ts:71-182 | An entry is allowed exactly when nothing stands against it, each reason spelled out on the profile, the ruleset and the stakes: the birthday in UTC, the region before its country, expired restrictions and reviews |
| EligibilityMeaning.RefusalInOrder | apps/purse/src/eligibility/evaluate.ts:48-126 | A refusal lists its reasons each once in the fixed order and asks for what the first of them needs |
| EligibilityMeaning.StakesMean | apps/purse/src/eligibility/velocity.ts:18-38 | Only escrow entries count towards velocity, each by what it debits the wallet, and only when posted strictly after the window's start |
| SettlementTheorems.Conservation | apps/purse/src/settlement/settle.ts:38-84 | The payouts sum to exactly the pool |
| SettlementTheorems.OnePayoutPerEntrant | apps/purse/src/settlement/settle.ts:38-84 | Every entrant is paid once, in ranked order, never a negative amount |
| SettlementTheorems.PlacementMeaning | apps/purse/src/settlement/settle.ts:91-104 | A placement is one more than the number of entrants who did strictly better (competition ranking), by a higher score, a score against none, or a lower seed or earlier submission at equal scores |
| SettlementTheorems.PlacementsOrdered | apps/purse/src/settlement/settle.ts:91-110 | Payouts come out by placement and, within a tie, by ascending user id |
| SettlementTheorems.PayoutsOrdered | apps/purse/src/settlement/settle.ts:189-207 | Nobody is paid less than an entrant ranked below them, for every structure and tie-break rule |
| SettlementTheorems.TiesShareEvenly | apps/purse/src/settlement/settle.ts:63-80 | Tied entrants are paid within one unit of each other, the larger share to the lower user id |
| SettlementTheorems.FloorGuaranteed | apps/purse/src/settlement/settle.ts:54-62 | When the pool covers the participation floor for everyone, everyone receives at least the floor |
| SettlementTheorems.FloorsOrNothing | apps/purse/src/settlement/settle.ts:54-62 | The floor is the same for everyone when the pool covers it; otherwise nothing is left for prizes |
| SettlementTheorems.UnscoredTakeNothing | apps/purse/src/settlement/settle.ts:64-66 | Once anybody has scored, an unscored entrant receives their floor share and nothing else |
| SettlementTheorems.OrderIndependence | apps/purse/src/settlement/settle.ts:6-8 | Settlement gives the same answer whatever order the entrants arrive in |
| SettlementTheorems.EvenSplitExact | apps/purse/src/settlement/settle.ts:210-217 | An even split loses nothing, and its shares are non-increasing and within one unit |
| SettlementTheorems.ProportionalExact | apps/purse/src/settlement/settle.ts:189-207 | Proportional shares add up to exactly the pool, remainder included |
| SettlementMeaning.PlacedAhead | apps/purse/src/settlement/settle.ts:107-147 | One entrant is placed ahead of another exactly when their score is higher, or is there and the other's is not, or at equal scores the seed is lower or the submission earlier under the rule that asks; and whoever is placed ahead is paid no less |
| SettlementMeaning.PayoutExact | apps/purse/src/settlement/settle.ts:63-84 | Everyone at one placement shares evenly exactly the prizes of the slots they stand on, odd units to the first of them, on top of their floors |
| SettlementMeaning.WinnerTakesAll | apps/purse/src/settlement/settle.ts:173-185 | Under winner-take-all with no floor, whoever outscores everyone else is paid the whole pool and everyone else nothing |
| SettlementMeaning.EqualPrizes | apps/purse/src/settlement/settle.ts:173-217 | The first slot takes the whole pot under winner-take-all, and the first n share it within one unit under top-n-equal |
| SettlementMeaning.TablePrizes | apps/purse/src/settlement/settle.ts:173-207 | Percentages and placement rows are weights: each slot is paid its share rounded down, the units left over go one each to the first slots, and a pot equal to the rows' total pays exactly the rows |
| SettlementMeaning.MinimumsCovered | apps/purse/src/settlement/settle.ts:154-172 | A pot that covers the minimums pays each slot its minimum and shares the rest by the percentages |
| SettlementMeaning.MinimumsUncovered | apps/purse/src/settlement/settle.ts:154-172 | A pot that does not pays the minimums best place first until it is spent |
| SettlementMeaning.FloorsMean | apps/purse/src/settlement/settle.ts:54-62 | Each entrant's floor is the structure's when the pool covers it for all, and otherwise an even share of the pool |
| SettlementMeaning.SlotsMean | apps/purse/src/settlement/settle.ts:64-66 | Prizes are cut for the scored entrants, or for everyone when nobody scored |
| SettlementEngine.ShareProportionally | apps/purse/src/settlement/settle.ts:197-208 | The remainder loop hands out leftover units from the first slot, as the specification says |
| SettlementEngine.PayUntilSpent | apps/purse/src/settlement/settle.ts:160-167 | The minimums are paid best placement first until the pool runs out |
| SettlementEngine.PrizeVectorOf | apps/purse/src/settlement/settle.ts:150-171 | The imperative prize vector equals the specified one for every structure |
| SettlementEngine.Rank | apps/purse/src/settlement/settle.ts:91-104 | Sorting and grouping gives the specified tie groups of the ranked entrants |
| SettlementEngine.GroupInOrder | apps/purse/src/settlement/settle.ts:94-102 | The grouping loop joins each entrant to the last group exactly when tied with its head |
| SettlementEngine.Place | apps/purse/src/settlement/settle.ts:95-101 | One turn of the grouping loop |
| SettlementEngine.AllDistinct | apps/purse/src/settlement/settle.ts:245-255 | The set of seen users detects exactly the lists with a repeat |
| SettlementEngine.PayAll | apps/purse/src/settlement/settle.ts:68-83 | The payout loop pays each group its slots' sum, moving the position on group by group |
| SettlementEngine.PayOne | apps/purse/src/settlement/settle.ts:71-82 | One group's slots are summed and shared evenly on top of the floors |
| SettlementEngine.RunSettle | apps/purse/src/settlement/settle.ts:38-84 | The imperative engine refuses and pays exactly as the specified function |
| PurseStore.Store.PostEntry | apps/purse/src/ledger/post.ts:80-198 | The posting method answers and changes the journal exactly as specified: validate, replay a used key, check reversal and balances, append |
| PurseStore.Store.MoveContest | apps/purse/src/contests/transition.ts:50-94 | The single writer of contest state checks the table, the actor and the guard, and writes only that contest |
| PurseStore.Store.CreateContest | apps/purse/src/contests/create.ts:83-170 | Creation in place refines the specified transition |
| PurseStore.Store.UpdateContest | apps/purse/src/contests/create.ts:181-235 | Editing in place, draft only, refines the specified transition |
| PurseStore.Store.TransitionContest | apps/purse/src/contests/lifecycle.ts:31-56 | The moves that carry no money refine the specified transition |
| PurseStore.Store.EnterContest | apps/purse/src/contests/entries.ts:76-262 | Entry in place refines the specified transition and hands back a refusal exactly when eligibility refused |
| PurseStore.Store.WithdrawEntry | apps/purse/src/contests/entries.ts:295-381 | Withdrawal in place refines the specified transition |
| PurseStore.Store.SubmitScores | apps/purse/src/contests/scores.ts:70-185 | Score submission in place, insertion, supersession and advance together, refines the specified transition |
| PurseStore.Store.MaybeAdvance | apps/purse/src/contests/scores.ts:215-235 | Advancing in place refines the specified advance |
| PurseStore.Store.SettleIfAuto | apps/purse/src/contests/scores.ts:230-234 | A contest that waits for settlement under the automatic policy is settled in the same transaction, and any other is left as it is |
| PurseStore.Store.ExecuteSettlement | apps/purse/src/contests/settlement.ts:171-252 | Settlement in place refines the specified settlement: same journal, same contest row, same preview |
| PurseStore.Store.CheckAgainst | apps/purse/src/contests/settlement.ts:176-184 | The preview recomputed under the settling state, refused exactly when the caller presented another's hash |
| PurseStore.Store.SettleBehindHash | apps/purse/src/contests/settlement.ts:176-252 | From the check against the presented hash to the last transition, in place, equals the specified settlement |
| PurseStore.Store.PayOut | apps/purse/src/contests/settlement.ts:186-252 | Rake, payouts, result rows and the last transition refine their specification |
| PurseStore.Store.TakeRake | apps/purse/src/contests/settlement.ts:186-211 | The rake is its own entry, posted only when positive |
| PurseStore.Store.SettleEscrow | apps/purse/src/contests/settlement.ts:213-230 | One settle entry pays every positive payout, or none is posted when nobody is owed |
| PurseStore.Store.CloseContest | apps/purse/src/contests/settlement.ts:300-330 | Closing in place refines the specified transition |
| PurseStore.Store.VoidContest | apps/purse/src/contests/settlement.ts:359-406 | Voiding in place refines the specified transition |
| PurseStore.Store.RefundEach | apps/purse/src/contests/settlement.ts:376-386 | The refund loop reverses each active participant's stake and collects the entries |
| PurseStore.Store.RefundOne | apps/purse/src/ledger/flows.ts:230-248 | One reversal with mirrored lines under the participant's void key |
| PurseStore.Store.RunOperation | apps/purse/src/contests/idempotency.ts:46-80 | Dispatch of a request refines the specified operation |
| PurseStore.Store.Handle | apps/purse/src/contests/idempotency.ts:46-80 | A request end to end on mutable rows, with lookup, transaction, recorded key and rollback, is exactly one step of the state machine |
| PurseStore.Store.CheckInput | apps/purse/src/contests/create.ts:25-71 | Input is refused before anything is read, as specified |
| PurseLoops.ValidateSubmissions | apps/purse/src/contests/scores.ts:237-270 | The loop over a set of seen users finds the first repeated user |
| PurseLoops.FirstUnscorable | apps/purse/src/contests/scores.ts:97-111 | The first submitted user who may not be scored, in submission order |
| PurseLoops.Supersede | apps/purse/src/contests/scores.ts:133-165 | Inserting the batch and pointing earlier counting rows at their successors gives the specified history |
| PurseLoops.FilterPaid | apps/purse/src/contests/settlement.ts:213-213 | Only positive payouts are posted |
| PurseLoops.SettleLines | apps/purse/src/ledger/flows.ts:193-216 | The loop builds the specified settle lines: one debit of the total, one credit a winner |
| PurseLoops.Results | apps/purse/src/contests/settlement.ts:232-249 | The loop writes one result row per payout with the entrant's score |
| PurseLoops.ScoresByUser | apps/purse/src/contests/settlement.ts:232-249 | The map filled from the preview's entries finds each user's score |
| Locks.ProgramOrdered | apps/purse/src/contests/load.ts:33-45 | Every operation takes its contended locks in one order: request key, contest row, user entry, platform fee, account rows by id |
| Locks.SettleOrdered | apps/purse/src/contests/settlement.ts:186-229 | A settlement with a rake takes account rows in two batches and still follows the order |
| Locks.WaitsAreContended | apps/purse/src/contests/settlement.ts:348-430 | A lock taken out of order is never waited for: whoever holds its guard is the only one who can want it |
| Locks.OneAtATime | apps/purse/src/contests/load.ts:33-45 | Of any two transactions that need the same contest, wallet, escrow or request key, at most one holds all its locks in any reachable lock table |
| Locks.NeverDeadlocked | apps/purse/src/contests/entries.ts:150-153 | In every lock table any interleaving of any number of transactions reaches, some transaction can take the lock it wants or finish |
| LadderTheorems.ScorelineExact | apps/pingpong/src/domain/ladder.ts:74-85 | A scoreline is accepted exactly when some game, played point by point, first becomes decided at that score with neither side past 99, and the winner named is that game's |
| LadderTheorems.ResultReorders | apps/pingpong/src/domain/ladder.ts:94-116 | A confirmed result takes a winning challenger out and puts them just above the defender, moves nobody otherwise, and gives each player's record its one result |
| LadderTheorems.ResultReordersPlayers | apps/pingpong/src/domain/ladder.ts:94-116 | The same in terms of names in rank order alone |
| LadderTheorems.ResultCounts | apps/pingpong/src/domain/ladder.ts:99-112 | Every result adds exactly one win and one loss to the ladder |
| LadderTheorems.FinalScoresReproduceTheLadder | apps/pingpong/src/domain/ladder.ts:137-146 | Ranking entrants by one plus the number with a strictly higher final score gives back each one's rank |
| LadderTheorems.EveryScoreGiven | apps/pingpong/src/domain/ladder.ts:137-146 | Each of the scores 1 to n is given to somebody |
| LadderTheorems.ScoresMeanRanks | apps/pingpong/src/domain/ladder.ts:118-146 | On a gapless ladder every final score is n less the rank plus one, and no score is refused |
| LadderMatches.StaysUpright | apps/pingpong/src/domain/ladder.ts:94-116 | A result between two other players cannot put a challenger above their defender |
| LadderMatches.OpenMatchesNeverInvert | apps/pingpong/src/server/matches.ts:28-112 | In every reachable season each player is in at most one open match and every open match's defender still ranks above its challenger |
| LadderMatches.ConfirmNeverThrows | apps/pingpong/src/server/matches.ts:85-112 | Confirming never hits either range error of the result rule, and never finds a scoreline it would refuse |
| LadderMatches.LadderIsFold | apps/pingpong/src/server/matches.ts:85-112 | The stored ranks and records always equal the joins and confirmed results replayed in order; wins and losses both add up to the number of results |
| LadderMatches.ResultsAreConfirmations | apps/pingpong/src/server/matches.ts:85-112 | The replayed results are exactly the confirmed matches: the same pairings with the same winners, each as often, and every confirmed match names its winner |
| LadderOutcomes.ChallengeAccepted | apps/pingpong/src/domain/ladder.ts:51-72 | In every reachable season a challenge goes through exactly while playing, from a player to one standing one to three places above, when neither is in an open match; it adds that match and nothing else |
| LadderOutcomes.ReportAccepted | apps/pingpong/src/server/matches.ts:62-80 | A result is reported exactly while playing, by one of the two, of an open match, with a score a game can end at; reporting again replaces it |
| LadderOutcomes.DeclineAccepted | apps/pingpong/src/server/matches.ts:48-59 | A challenge is declined exactly by the challenged player before anything is reported |
| LadderOutcomes.RejectAccepted | apps/pingpong/src/server/matches.ts:115-131 | A reported result is rejected exactly by the other player, and the match is open to be reported again |
| LadderOutcomes.ConfirmAccepted | apps/pingpong/src/server/matches.ts:85-112 | In every reachable season a result is confirmed exactly while playing, by the other player of a reported match; the match names its confirmer and the higher scorer, a winning challenger takes the defender's place with those between moved down one, and each record gains its one result |
| LadderOutcomes.ConfirmedByBoth | apps/pingpong/src/server/matches.ts:62-112 | In every reachable season a confirmed match was reported by one of its players, confirmed by the other and won by whoever scored more |
| LadderOutcomes.ResultsAreFinal | apps/pingpong/src/server/matches.ts:28-131 | Through any run a match keeps its players, and once declined or confirmed it never changes |
| LadderOutcomes.SeasonMoves | apps/pingpong/src/server/purse/close.ts:26-76 | Only the commissioner moves a season: to playing with two entrants or more (`seasons.ts:80-91`), to closing with no match open, then to closed |
| LadderOutcomes.EntriesRecorded | apps/pingpong/src/server/purse/contests.ts:95-124 | In every reachable season joining puts each newcomer once at the bottom and moves nobody else |
| LadderStore.Board.RecordEntries | apps/pingpong/src/server/purse/contests.ts:95-124 | Entrants not on the ladder take the next ranks at the bottom, once each |
| LadderStore.Board.Issue | apps/pingpong/src/server/matches.ts:28-46 | Issuing a challenge on mutable rows refines the specified step |
| LadderStore.Board.CollectOpen | apps/pingpong/src/server/matches.ts:33-36 | The query finds exactly the pairs of open matches, in order |
| LadderStore.Board.Decline | apps/pingpong/src/server/matches.ts:48-59 | Declining refines the specified step |
| LadderStore.Board.Report | apps/pingpong/src/server/matches.ts:62-80 | Reporting refines the specified step |
| LadderStore.Board.CheckConfirm | apps/pingpong/src/server/matches.ts:89-95 | The checks before a confirmation, in order |
| LadderStore.Board.Confirm | apps/pingpong/src/server/matches.ts:85-112 | Confirming, with one update per ladder row and one of the match, refines the specified step |
| LadderStore.Board.WriteBack | apps/pingpong/src/server/matches.ts:98-103 | The loop of updates leaves every row with its player's new rank and record |
| LadderStore.Board.Reject | apps/pingpong/src/server/matches.ts:115-131 | Rejecting refines the specified step |
| HandshakeTheorems.ResolvedMeansAgreed | packages/purse-sdk/src/purse.ts:187-244 | In every interleaving of deliveries, reloads, remounts, timeouts and foreign messages, a resolved mount means a document of that very frame accepted that session's hello (same nonce, flow and key), became ready, and acknowledged with the resolved state |
| HandshakeTheorems.SettlesOnce | packages/purse-sdk/src/purse.ts:308-315 | Each mount's promise settles at most once: its outcome never changes afterwards |
| HandshakeStrays.StraysChangeNothing | packages/purse-sdk/src/purse.ts:317-329 | Taking out of any run everything posted by strangers, to the page or to a frame, and everything delivered from documents of other frames than the mounted one leaves the same final world (session, outcomes, answers, documents and all messages posted) but for the counts of drops |
| HandshakeStrays.SameStep | apps/purse-embed/src/embed/receiver.ts:34-52 | The counts of drops decide nothing: two worlds that differ only in counts still do after any step |
| HandshakeTheorems.NoncesAreOwn | packages/purse-sdk/src/purse.ts:331-337 | A frame has at most one nonce, reloads included |
| HandshakeTheorems.CanComplete | packages/purse-sdk/src/purse.ts:187-244 | For every flow that passes the mount's checks there is a run in which the mount resolves |
| HandshakeReads.ReadsAnswered | packages/purse-sdk/src/purse.ts:247-283 | In every run each state read waits in the session it was asked in, or was answered with a state some document of that session's frame told, or as signed out once that session was unmounted or replaced |
| HandshakeReads.StateAnswers | packages/purse-sdk/src/purse.ts:365-369 | A state delivered under the session's nonce answers every pending read with it, leaves the session holding it and changes nothing else |
| HandshakeReads.StatesWereHanded | apps/purse-embed/src/embed/bridge.ts:174-211 | In every run each state a document tells was handed to that document first, by its own read or its flow |
| HandshakeReads.AnswerWasHanded | packages/purse-sdk/src/purse.ts:275-283 | So a read answered with a state was answered with one handed to a document of the frame it was asked of |
| HandshakeEnds.EveryFrameStep | apps/purse-embed/src/embed/bridge.ts:92-221 | What a document posts and becomes when it starts, opens a session, answers a state request, is told something or is measured: each message with its nonce, flow, state and clamped height |
| HandshakeEnds.EveryPageStep | packages/purse-sdk/src/purse.ts:187-315 | What mounting, unmounting, the timer and the two requests do to the page: the session, outcomes, answers and messages |
| HandshakeEnds.PageHeard | apps/purse-embed/src/embed/bridge.ts:126-160 | What each message of the page does to a document, or what it is dropped and counted for |
| HandshakeEnds.FrameHeard | packages/purse-sdk/src/purse.ts:317-374 | What each message of a document but a state does to the page, or what it is dropped and counted for |
| EmbedClients.Purse.Mount | packages/purse-sdk/src/purse.ts:187-244 | Mounting checks in order, replaces any earlier session and opens a handshake, as specified |
| EmbedClients.Purse.Unmount | packages/purse-sdk/src/purse.ts:247-260 | Unmounting rejects a pending mount, answers pending reads as signed out and clears the session |
| EmbedClients.Purse.AnswerReads | packages/purse-sdk/src/purse.ts:257-258 | The loop answers every pending read, each once |
| EmbedClients.Purse.GetUserState | packages/purse-sdk/src/purse.ts:275-283 | A state read through the frame joins the pending reads and asks under the session's nonce |
| EmbedClients.Purse.RequestResize | packages/purse-sdk/src/purse.ts:262-267 | A resize is requested only once the session has a nonce |
| EmbedClients.Purse.Drop | packages/purse-sdk/src/purse.ts:304-306 | A drop only counts |
| EmbedClients.Purse.FailHandshake | packages/purse-sdk/src/purse.ts:308-315 | Failing settles the open handshake, and nothing when it has been settled |
| EmbedClients.Purse.TimerFires | packages/purse-sdk/src/purse.ts:237-240 | A timer acts only on the session it was set for |
| EmbedClients.Purse.Receive | packages/purse-sdk/src/purse.ts:317-329 | Origin and window, then shape, then nonce, and only then a change, as specified; each reason for a drop is spelled out on the event |
| EmbedClients.Purse.OnReady | packages/purse-sdk/src/purse.ts:331-337 | A ready before the handshake settles is answered with hello under the session's one nonce; a later one is dropped |
| EmbedClients.Purse.Dispatch | packages/purse-sdk/src/purse.ts:339-374 | Each accepted message changes the session exactly as specified; a state answers every pending read with it |
| EmbedClients.FrameReceiver.Validate | apps/purse-embed/src/embed/receiver.ts:40-53 | The first hello establishes the nonce; every other message is accepted only under it, and each reason for a drop is spelled out on the event |
| EmbedClients.Bridge.Start | apps/purse-embed/src/embed/bridge.ts:92-114 | The frame says nothing to a parent that is not on the allowlist |
| EmbedClients.Bridge.Receive | apps/purse-embed/src/embed/bridge.ts:126-143 | Accepted messages are acted on and dropped ones are not |
| EmbedClients.Bridge.OnHello | apps/purse-embed/src/embed/bridge.ts:145-160 | A hello naming another key or flow, or lacking a needed token, fails the frame; any other starts a session |
| EmbedClients.Bridge.SessionOpened | apps/purse-embed/src/embed/bridge.ts:156-172 | An opened session makes the frame ready and acknowledges under the hello's nonce; a refused one fails it |
| EmbedClients.Bridge.Fail | apps/purse-embed/src/embed/bridge.ts:186-189 | A fatal failure is reported under the hello's nonce |
| EmbedClients.Bridge.UpdateState | apps/purse-embed/src/embed/bridge.ts:206-211 | A changed state is told only once there is a nonce |
| EmbedClients.Bridge.ReportHeight | apps/purse-embed/src/embed/bridge.ts:214-221 | A height is clamped, and sent on request always and otherwise only when it changed |
| CanonicalJsonTheorems.OneTextOneValue | packages/purse-types/src/attestation.ts:60-74 | Two values with unique keys have the same canonical text exactly when they are equal up to key order and the sign of zero |
| CanonicalJsonTheorems.SameIsCanon | packages/purse-types/src/attestation.ts:50-74 | Equality up to key order and the sign of zero is equality of normal forms |
| Attestation.SignedMeansSame | packages/purse-types/src/attestation.ts:175-181 | Payloads equal up to key order and the sign of zero are signed as the same bytes or refused alike, and any two payloads signed as the same bytes within the 4096-byte cap are equal up to those |
| Utf8.EncodeExact | packages/purse-types/src/attestation.ts:175-181 | Two texts of UTF-16 code units are encoded as the same UTF-8 bytes exactly when they agree once each lone surrogate is replaced by U+FFFD |
| CanonicalJsonTheorems.PrintWellFormed | packages/purse-types/src/attestation.ts:60-74 | Whatever lone surrogates a value's strings hold, its canonical text has none, so encoding it as UTF-8 replaces nothing |
| CanonicalJsonMeaning.EscapesAre | packages/purse-types/src/attestation.ts:60-62 | Each code unit's escape: the seven short ones, control characters and lone surrogates as four lower-case hexadecimal digits, anything else as itself |
| CanonicalJsonMeaning.QuotedIs | packages/purse-types/src/attestation.ts:60-62 | A string is quoted unit by unit, with a whole surrogate pair left as it is |
| CanonicalJsonMeaning.KeysInOrder | packages/purse-types/src/attestation.ts:69-72 | An object's fields are written each once, in the order of their keys by code unit, a prefix first |
| CanonicalJsonMeaning.PrintIs | packages/purse-types/src/attestation.ts:60-74 | How each kind of value is written, comma by comma and with no space |
| CanonicalJsonMeaning.SignedIs | packages/purse-types/src/attestation.ts:175-181 | Exactly the payloads of safe integers whose domain-prefixed text takes at most 4096 bytes are signed, as those bytes |
| CanonicalJsonMeaning.EncodedCharacters | packages/purse-types/src/attestation.ts:175-181 | Characters of one to four bytes and a lone surrogate encode as UTF-8 prescribes |
| CanonicalJsonParser.ValueRoundTrip | packages/purse-types/src/attestation.ts:60-74 | A parser reads back from the printed text the value's normal form and stops exactly where the text ends |
| CanonicalJsonParser.StringRoundTrip | packages/purse-types/src/attestation.ts:60-74 | A string read by the syntax of section 7 of RFC 8259 is the string that was escaped, code unit by code unit |
| CanonicalJsonParser.NumberRoundTrip | packages/purse-types/src/attestation.ts:60-74 | A safe integer reads back from its digits, negative zero as zero |
| Webhooks.ConstantTimeEqual | packages/purse-sdk/src/webhooks.ts:39-45 | The xor-or loop accepts exactly equal byte strings, for all lengths, empty and wrapped ones included |
| Webhooks.XorZero | packages/purse-sdk/src/webhooks.ts:39-45 | The xor of two numbers is zero exactly when they are equal |
| Webhooks.OrZero | packages/purse-sdk/src/webhooks.ts:39-45 | The or of two numbers is zero exactly when both are |
| Webhooks.ParseSignatureHeader | packages/purse-sdk/src/webhooks.ts:56-76 | The imperative parser gives exactly what the part-by-part specification says |
| Webhooks.VerifyWebhook | packages/purse-sdk/src/webhooks.ts:82-93 | A webhook is accepted exactly when its header parses, its time is within the tolerance and some candidate is the keyed hash of time and body |
| WebhookTheorems.ParseExact | packages/purse-sdk/src/webhooks.ts:56-76 | A header is read exactly when it has 1 to 4096 characters, every comma-separated part has a name and an equals sign, one part named t has 1 to 12 digits and one or more named v1 have 64 hexadecimal digits each; it says that time and those signatures in order |
| WebhookTheorems.TrimMeans | packages/purse-sdk/src/webhooks.ts:56-76 | Trimming takes exactly the space at both ends |
| WebhookTheorems.HeaderRoundTrip | packages/purse-sdk/src/webhooks.ts:48-76 | Parsing a signed header gives back its time and signature exactly when the time is below 10^12, and nothing otherwise |
| WebhookTheorems.RotationRoundTrip | packages/purse-sdk/src/webhooks.ts:56-76 | A header of one time and any number of signatures parses back to exactly those, within the length cap and twelve digits, and to nothing otherwise |
| WebhookTheorems.UnknownPartsIgnored | packages/purse-sdk/src/webhooks.ts:56-76 | A part of an unknown scheme, wherever it stands within the length cap, does not change what a header parses to |
| WebhookTheorems.SplitJoin | packages/purse-sdk/src/webhooks.ts:56-76 | Splitting at commas undoes joining |
| WebhookTheorems.SignedVerifies | packages/purse-sdk/src/webhooks.ts:48-93 | The header is spelled out; what is signed verifies within the tolerance, is out of window outside it, and is malformed from 10^12 on |
| ProbeCache.LoadsNeverOverlap | apps/purse-console/src/server/status.ts:62-68 | In every run each load has ended before the next begins, resets or not |
| ProbeCache.LoadsAreSpaced | apps/purse-console/src/server/status.ts:62-68 | Loads start at least the ttl apart unless a reset came between |
| ProbeCache.ServedHonestly | apps/purse-console/src/server/status.ts:62-89 | Everything served from memory is a value some load returned at the time it states, younger than the ttl when fresh and than ttl plus the stale allowance when stale |
| ProbeCache.LandedHonestly | apps/purse-console/src/server/status.ts:75-89 | What a load gives the read that started it is its own value, a good one younger than the stale allowance, or its failure |
| ProbeCache.ResetForgetsIff | apps/purse-console/src/server/status.ts:62-89 | After a reset, in every continuation, whatever is remembered or served from memory was found by loads started since, exactly when no load was unfinished at the reset |
| ProbeCache.OldValueServed | apps/purse-console/src/server/status.ts:70-89 | When one was, the value it brings is served as fresh after the reset, and no load started since found it |
| ProbeCache.ResetUnjoinsIff | apps/purse-console/src/server/status.ts:62-68 | Reads after a reset join only loads started since exactly when none was held at the reset, finished or not |
| ProbeCache.Cache.Read | apps/purse-console/src/server/status.ts:62-68 | A read is served from the remembered attempt, joins the load in flight, or starts one |
| ProbeCache.Cache.Land | apps/purse-console/src/server/status.ts:75-89 | A landed load updates the value and the remembered attempt as specified |
| ProbeCache.Cache.Release | apps/purse-console/src/server/status.ts:64-66 | The finished load is let go and nothing else changes |
| ProbeCache.Cache.Reset | apps/purse-console/src/server/status.ts:70-73 | A reset forgets the value and the attempt but not the load in flight |

## Left out

- ContestLimits.SlidingWindow: assumes one ruleset for the whole run; when it changes between entries there is no single limit to state.
- LadderStore.Board.Confirm: asks for the season's invariant, which every reachable season has (`LadderMatches.OpenMatchesNeverInvert` rests on it); it stands for the table's unique player per season and the ranks being gapless.
- EmbedClients.Purse.GetUserState: covers the read through the frame; the headless HTTP read used before the handshake is I/O.
- EmbedClients.Bridge.SessionOpened: opening a session at the API is a parameter, answered or refused at any later time.
- Webhooks.VerifyWebhook: the keyed hash is a parameter that returns 64 hexadecimal digits; nothing is assumed about collisions.
- SHA-256 over payouts and over request bodies is injective, and nonces are fresh; their cryptography, ECDSA attestations, base64url and key handling are not modelled.
- Disqualification: the participant state exists in the rows, but no operation sets it, so no run reaches it (`ContestResults.NobodyDisqualified`).
- Accounts are opened on first use without a step of their own, and are never closed; the account-status refusals of posting are not modelled. In `Locks`, a settlement opens no winner's wallet, since each entrant's was committed with their entry.
- Users, titles, kinds, descriptions, request-key length checks and metadata: carried by rows but decided nothing that is proved here.
- Audit rows, webhook events, collusion and risk flags, and operator flags: side records written beside the modelled ones.
- Geolocation and identity providers: what they answer is part of the profile each entry is judged with.
- Ruleset versions: a request is judged by the ruleset handed to it; reading the version a contest was created under is not modelled.
- Treasury payments: only deposits, withdrawals and promotional points as journal postings made outside contests.
- SQL itself: a transaction is a step with rollback, and row and advisory locks appear only in `Locks`, where each transaction's locks and their order are fixed when it starts.
- Season mirroring to Purse and pushing final scores over HTTP: the season's own status moves and the scores it would push are modelled.
- Numbers outside the safe integers in canonical JSON: the source refuses them, and so does the model.
- The frame's height in the page, themes, event emitters and the fields of messages beyond version, type, flow, key, token, nonce, state and height.
- A second SDK instance on one page, and other scripts in the partner's own page: a foreign message to a frame never comes from the parent's window, which is all the frame can check.
- React components, Next pages, HTTP clients, environment parsing, seeds and build configuration.
