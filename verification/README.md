# Vitalis: a verified model of the agent's protocols

Vitalis is a workspace for a self-sustaining agent. This project models its four protocols in
Dafny and proves what they promise:

* **Barter and reputation** (`crates/vitalis-negotiate`). Agents swap resources through signed
  offers, acceptances and settlements, score each other by what was delivered, forget at a
  half-life, and gossip about third parties through at most two relays.
* **Reflection** (`crates/vitalis-reflect`). Least-squares forecasts over a bounded history,
  scored when their target cycle arrives.
* **Replication** (`crates/vitalis-replicate`). A versioned checkpoint format, erasure-coded
  shards, sealed restores and migration, and a copy limit.
* **The survival loop** (`apps/vitalis-drive`). Energy drain, threat classification, one
  replication, throttling.

## How it is built

Code that updates state in place is a class (`Ledger`, `Negotiator`, `Reflector`,
`CopyLimitPolicy`, `Replicator`, `Drive`) or a method with a loop, each proved equal to a
specification function on values. The protocol theorems are then lemmas about those functions
and about runs of them.

| files | content |
|---|---|
| `Core`, `RealMath`, `Messages`, `WireSizes` | shared vocabulary, exact real arithmetic, the message alphabet and how large it is on the wire |
| `Reputation`, `ReputationLaws` | the decayed reputation record and its laws |
| `NegotiatorSpec`, `NegotiatorRuns`, `Negotiator` | the negotiator's operations on values, its runs, the object |
| `Answers` | what is answered to each message, in the message's and the state's own terms |
| `HonestTrade`, `Fleet`, `Solvency`, `Accounting`, `Provenance`, `NonInterference`, `Convergence`, `HearsayInfluence`, `Sweeps` | what holds over whole runs |
| `DoubleTaking`, `Members`, `Witnesses` | concrete fleets and messages at which a documented claim fails |
| `LinReg`, `Predict`, `Reflector` | regression, forecasts, the reflector |
| `GF256`, `Polynomials`, `ReedSolomon`, `Shards` | the field of bytes, interpolation, the erasure code, the shard layout |
| `CheckpointFormat`, `CopyLimit`, `Replicator`, `ReplicatorRuns` | the byte format, the counter under interleaving, the object, its runs |
| `Throttle`, `Drive`, `DriveRuns` | the loop and what a whole run amounts to |

Floating-point numbers are exact reals. Decay is `Pow(d, n)` for the one `d` with
`Pow(d, halfLife) == 0.5`. Signatures are symbolic: one that verifies under a key was made by a
holder of that key for that payload. Nonces, clock readings, the state encoding and the seal
functions are parameters. A hash map is walked in arbitrary order. The foreign erasure-code
library is modelled by the code it implements: shard r holds, at each byte position, the value at
point r of the polynomial through the data bytes.

## Where the code and its documentation disagree

The model follows the code.

* `report_reputation` is documented as the agent's own direct view
  (crates/vitalis-negotiate/src/message.rs:34-36, negotiator.rs:672-674) but quotes the score with
  the agent's collected hearsay mixed in. `ReportIsDirectViewIff` says exactly when the two agree;
  `HearsayIsPassedOnAsDirect` is an agent for which they do not.
* A demo asserts that one broken bargain blacklists
  (examples/feral-scavenger/src/main.rs:284). `OneFailureBlacklistsIff` says exactly when it does:
  if the peer already carries half a failure's weight. On a blank record, as in the demo, it does
  not (`TwoStrikes`).
* Hearsay is documented as having no say in trades; it has none as long as each identity uses one
  key. Reports and trades share one table of pins: `ReportHarmlessIff` gives the guard on the
  incoming report under which it leaves every later message's credibility alone, and
  `OneReportLocksOut` a single report that locks an honest peer out.
* An offer names no addressee and re-opens its nonce when received again. Conservation holds if
  each offer is received once, by one other agent (`Conservation`); whatever is received,
  it holds exactly if every credited settle is still in flight or worthless (`ConservationIff`,
  `CreditKeepsTotalIff`). `TotalCanGrow` is a run in which ten units become fifteen because an offer
  is taken twice; `ReplayedOfferReopens` gives the guards under which a spent settle pays again.
* A trade is meant to settle with the peer it was opened with. On the proposer's side the bound
  counterparty is final (`BindingIsFinal`); on the offeree's another signer's offer of the same
  nonce replaces it, exactly if it passes the guards of taking an offer (`AcceptedRebindsIff`).
* Gossip converges exactly if the freshest admissible claims of each origin agree
  (`OrderIrrelevantIff`). A report and its own relay do not: they differ in hops
  (`RelayOrderShows`).
* Capturing a checkpoint does not check the size limit that restoring enforces:
  `StateSurvivesShardLoss` and `LegacyVerifies` carry the condition, `OversizedStateIsRefused` is
  the failing family.
* The drive's last threat is described as this cycle's (apps/vitalis-drive/src/loop_.rs:141-142)
  but is never cleared. `CarriedIsOwnIff` says exactly which samples carry a threat that is not
  their cycle's own, `StaleThreatIsCarried` is one.

## Model

| member | source | states |
|---|---|---|
| ReputationLaws.DecayDetermined | crates/vitalis-negotiate/src/negotiator.rs:149-154 | the half-life fixes the decay factor at every age |
| ReputationLaws.LazyDecayIsEager | crates/vitalis-negotiate/src/negotiator.rs:156-226 | storing one decayed number per pool reads back, at any later cycle, as the eager sums of r*d^age and (1-r)*d^age over all outcomes; failure weight equals the failure pool |
| ReputationLaws.OutcomeKeepsSound | crates/vitalis-negotiate/src/negotiator.rs:214-226 | recording any outcome keeps evidence non-negative and failure weight at most the ding count |
| ReputationLaws.TrustBand | crates/vitalis-negotiate/src/negotiator.rs:171-209 | with k fresh witnesses trust stays in the band around direct evidence that k*0.35 allows |
| ReputationLaws.WitnessMovesTowardClaim | crates/vitalis-negotiate/src/negotiator.rs:171-209 | a new witness's claim moves trust strictly toward the claimed value and never past it |
| ReputationLaws.BlacklistNeedsTwoDings | crates/vitalis-negotiate/src/negotiator.rs:107-110 | a blacklisted peer has at least two dings |
| ReputationLaws.OneFailureBlacklistsIff | crates/vitalis-negotiate/src/negotiator.rs:214-226 | one full failure blacklists if and only if the peer's decayed failure weight was at least one half |
| ReputationLaws.TwoStrikes | crates/vitalis-negotiate/src/negotiator.rs:107-110 | two full failures in one cycle blacklist whatever came before; one on a blank record does not |
| ReputationLaws.Forgiveness | crates/vitalis-negotiate/src/negotiator.rs:164-167 | blacklisted j half-lives after the last outcome if and only if the weight was at least 1.5*2^j; once cleared, stays cleared |
| ReputationLaws.TrustRecovers | crates/vitalis-negotiate/src/negotiator.rs:196-209 | without hearsay and new outcomes trust never falls |
| ReputationLaws.FadesByHalves | crates/vitalis-negotiate/src/negotiator.rs:149-154 | whole at age zero or without decay, one half after a half-life, and multiplicative over two spells |
| ReputationLaws.WeightByDistance | crates/vitalis-negotiate/src/negotiator.rs:171-186 | a witness weighs 0.35, 0.21 or 0.126 at one, two or three hops and counts for a hundred cycles, inclusive |
| ReputationLaws.OneMoreWitness | crates/vitalis-negotiate/src/negotiator.rs:171-186 | a new witness adds exactly its weight, split by the trust it claims; a stale one adds nothing |
| ReputationLaws.StandingInFigures | crates/vitalis-negotiate/src/negotiator.rs:196-209 | trust is (successes + 1) over (all evidence + 1), the verdict is the decayed failure weight against 1.5, and dings never fade |
| ReputationLaws.StrangersAreTrusted | crates/vitalis-negotiate/src/negotiator.rs:665-670 | the standing of a stranger is that of a blank record: full trust, no dings |
| Messages.SignedMessage.Message | crates/vitalis-negotiate/src/message.rs:69-80 | a message is read exactly if its payload is within the size guard and decodes |
| WireSizes.TradesFit | crates/vitalis-negotiate/src/message.rs:15-33 | trade messages take the bytes their fields take, and pass the guard with units of up to 32000 characters |
| WireSizes.ReportsFit | crates/vitalis-negotiate/src/message.rs:34-42 | a report takes at most 61 bytes |
| WireSizes.RelaysFit | crates/vitalis-negotiate/src/message.rs:43-67 | a relay takes two identities, the hop count and the whole original, and passes the guard for originals of ordinary size |
| Negotiator.Ledger.Credit | crates/vitalis-negotiate/src/negotiator.rs:49-51 | adds the quantity to its kind and touches nothing else |
| Negotiator.Ledger.Debit | crates/vitalis-negotiate/src/negotiator.rs:57-67 | subtracts exactly if the balance of the kind covers the quantity, otherwise refuses and leaves the balances alone |
| Negotiator.HearsayContribution | crates/vitalis-negotiate/src/negotiator.rs:171-186 | the loop over witnesses in any order yields the two order-free hearsay sums |
| Negotiator.Snapshot | crates/vitalis-negotiate/src/negotiator.rs:196-209 | computes the specified standing |
| Negotiator.Negotiator.constructor | crates/vitalis-negotiate/src/negotiator.rs:296-333 | starts with the given credits and nothing pending, pinned or recorded |
| Negotiator.Negotiator.Pin | crates/vitalis-negotiate/src/negotiator.rs:338-342 | binds a key out of band |
| Negotiator.Negotiator.VerifyBinding | crates/vitalis-negotiate/src/negotiator.rs:376-395 | checks the signature and pins on first use; the only other change is a new pin |
| Negotiator.Negotiator.Verify | crates/vitalis-negotiate/src/negotiator.rs:366-371 | refuses unreadable messages before checking signatures |
| Negotiator.Negotiator.ProposeOffer | crates/vitalis-negotiate/src/negotiator.rs:398-419 | opens the nonce with no counterparty and signs the offer |
| Negotiator.Negotiator.ReceiveAccept | crates/vitalis-negotiate/src/negotiator.rs:426-447 | binds the first accepter; every refusal as in the code |
| Negotiator.Negotiator.ReceiveOffer | crates/vitalis-negotiate/src/negotiator.rs:452-502 | blacklist, cap and affordability in order, then opens the trade and accepts |
| Negotiator.Negotiator.Deliver | crates/vitalis-negotiate/src/negotiator.rs:510-517 | debits and signs the settle, or refuses unchanged |
| Negotiator.Negotiator.ReceiveSettle | crates/vitalis-negotiate/src/negotiator.rs:534-592 | honours a settle only from the recorded counterparty, consuming the trade, crediting and scoring |
| Negotiator.Negotiator.RecordDirectOutcome | crates/vitalis-negotiate/src/negotiator.rs:655-661 | updates one peer's record and nothing else |
| Negotiator.Negotiator.SweepTimeouts | crates/vitalis-negotiate/src/negotiator.rs:601-637 | the two draining loops, in any map order, reach the specified state and report list |
| Negotiator.Negotiator.Penalize | crates/vitalis-negotiate/src/negotiator.rs:651-653 | a fully broken bargain |
| Negotiator.Negotiator.PenalizeAndSnapshot | crates/vitalis-negotiate/src/negotiator.rs:639-647 | penalizes and reports the standing afterwards |
| Negotiator.Negotiator.Reputation | crates/vitalis-negotiate/src/negotiator.rs:665-670 | the standing of a peer, or the default for a stranger |
| Negotiator.Negotiator.ReportReputation | crates/vitalis-negotiate/src/negotiator.rs:675-683 | signs the current standing, stamped with the cycle |
| Negotiator.Negotiator.FoldHearsay | crates/vitalis-negotiate/src/negotiator.rs:790-821 | keeps the freshest admissible claim per origin |
| Negotiator.Negotiator.ReceiveReputationReport | crates/vitalis-negotiate/src/negotiator.rs:730-788 | direct and relayed reports with every silent and loud refusal |
| Answers.VerifyIff | crates/vitalis-negotiate/src/negotiator.rs:366-395 | a message passes exactly if it is at most 64 KiB, decodes, is signed under the key it names and its signer is bound to no other; then, and only then, the signer is bound to it |
| Answers.AcceptAnswered | crates/vitalis-negotiate/src/negotiator.rs:426-447 | the first accepter is bound and may repeat itself; a second one, an unknown nonce and another kind of message each have their refusal |
| Answers.OfferAnswered | crates/vitalis-negotiate/src/negotiator.rs:452-502 | which of nothing, a resource error and a signed acceptance an offer gets, decided by failure weight, trades pending and balance in that order |
| Answers.SettleAnswered | crates/vitalis-negotiate/src/negotiator.rs:534-592 | a settle is honoured exactly if its nonce is of a trade with its signer, the accepted side hiding the proposed one; what is credited and consumed; each refusal |
| Answers.PenaltyIsOneFailure | crates/vitalis-negotiate/src/negotiator.rs:651-661 | one whole failure, one ding, nobody else touched |
| Answers.ProposalLasts | crates/vitalis-negotiate/src/negotiator.rs:398-637 | a proposal survives a sweep exactly if fewer cycles than the timeout have passed since it was made |
| Answers.AcceptanceLasts | crates/vitalis-negotiate/src/negotiator.rs:452-637 | so does an offer taken |
| Answers.ReportQuotes | crates/vitalis-negotiate/src/negotiator.rs:675-683 | a report is signed by its witness and quotes its standing of the subject, stamped with the cycle |
| Answers.RelayAnswered | crates/vitalis-negotiate/src/negotiator.rs:691-720 | a report is relayed at two hops with itself as proof, a relayed one at one more with the same proof up to three; nothing else is relayed |
| Answers.ClaimReadIff | crates/vitalis-negotiate/src/negotiator.rs:730-788 | which claim is read from a report: exactly the proven ones, none from a blacklisted signer, an error for what is backed but unreadable |
| Answers.ClaimKeptIff | crates/vitalis-negotiate/src/negotiator.rs:790-821 | a claim replaces an entry exactly if it is about a third party, from the last hundred cycles, and no older than the entry |
| Answers.GossipArrives | crates/vitalis-negotiate/src/negotiator.rs:675-821 | a report, its relay and the relay of that arrive as the witness's own claim at one, two and three hops |
| NegotiatorRuns.StepKeepsValid | crates/vitalis-negotiate/src/negotiator.rs:398-821 | every operation on any message keeps all records sound and offeree trades bound |
| Fleet.MoveConserves | crates/vitalis-negotiate/src/negotiator.rs:398-592 | each single operation keeps the fleet invariant and every kind's total |
| Fleet.Conservation | crates/vitalis-negotiate/src/negotiator.rs:398-592 | over any run of any fleet under loss, duplication, reordering and misrouting, balances plus settles in flight equal the initial total per kind |
| Fleet.NoDoubleCredit | crates/vitalis-negotiate/src/negotiator.rs:534-592 | a settle once credited is never credited again by anybody |
| Solvency.DeliverIffFunded | crates/vitalis-negotiate/src/negotiator.rs:510-517 | a delivery goes out exactly if the balance of its kind covers the quantity, and takes exactly that; a refusal changes nothing |
| Solvency.AcceptsOnlyIfFunded | crates/vitalis-negotiate/src/negotiator.rs:486-488 | an offer is accepted only if the balance covers what it asks for |
| Solvency.NeverInDebt | crates/vitalis-negotiate/src/negotiator.rs:398-592 | balances that start non-negative stay so along any run whose credited settles are not negative |
| Solvency.StartsWithWhatItBrings | crates/vitalis-negotiate/src/negotiator.rs:313-333 | a new agent owns exactly its initial resources, summed by kind |
| Fleet.CreditKeepsTotalIff | crates/vitalis-negotiate/src/negotiator.rs:534-592 | without any hypothesis: a credit keeps a kind's total if and only if the settle is still in flight or worth nothing of it |
| Fleet.TotalsDrift | crates/vitalis-negotiate/src/negotiator.rs:398-592 | over any run, whatever the nonces and whoever takes offers, a kind's total moves by exactly what was credited unbacked |
| Fleet.ConservationIff | crates/vitalis-negotiate/src/negotiator.rs:398-592 | a run without negative settles conserves a kind if and only if every credited settle is backed or worthless |
| DoubleTaking.OneSettlePaysTwo | crates/vitalis-negotiate/src/negotiator.rs:452-592 | in any starting fleet where two members can take one offer, both are paid by its one settle and the total grows by what it gives |
| DoubleTaking.TotalCanGrow | crates/vitalis-negotiate/src/negotiator.rs:452-592 | a concrete run that turns ten units into fifteen |
| Fleet.ReplayedOfferReopens | crates/vitalis-negotiate/src/negotiator.rs:452-502 | a spent settle is honoured again if and only if its replayed offer passes the blacklist, cap and affordability guards |
| Accounting.EveryTradeAccountedFor | crates/vitalis-negotiate/src/negotiator.rs:398-637 | per nonce and side: held plus opened equals credited plus expired plus overwritten plus still pending |
| Accounting.CreditConsumes | crates/vitalis-negotiate/src/negotiator.rs:545-585 | each credit removes one trade, held with the settle's signer |
| Accounting.BindingIsFinal | crates/vitalis-negotiate/src/negotiator.rs:426-447 | no message changes the bound counterparty of a proposed trade |
| NegotiatorRuns.TakenIff | crates/vitalis-negotiate/src/negotiator.rs:452-502 | an offer is taken, and its nonce bound to its signer, if and only if it is acceptable and passes the three guards |
| Accounting.AcceptedRebindsIff | crates/vitalis-negotiate/src/negotiator.rs:489-496 | the counterparty of an accepted trade changes if and only if another signer's offer of its nonce passes the guards |
| Accounting.CreditFollowsAccept | crates/vitalis-negotiate/src/negotiator.rs:563-585 | a proposer-side credit was preceded in the run by that signer's acceptance of that nonce |
| Accounting.CapHolds | crates/vitalis-negotiate/src/negotiator.rs:475-485 | no peer ever holds more accepted trades than the cap |
| HonestTrade.HonestTradeCompletes | crates/vitalis-negotiate/src/negotiator.rs:398-592 | two parties that keep their word: every step from offer to both settlements succeeds, the ledgers swap exactly what was promised, nothing is pending and nobody is dinged |
| HonestTrade.FullSettleIsHonoured | crates/vitalis-negotiate/src/negotiator.rs:534-592 | a full settle from the recorded counterparty is credited, consumes its trade and costs no ding |
| Accounting.RatioIsShareDelivered | crates/vitalis-negotiate/src/negotiator.rs:231-239 | the ratio is the delivered share of the promise, zero for another kind, and one exactly if nothing is short |
| Accounting.SettleScoresThePromise | crates/vitalis-negotiate/src/negotiator.rs:545-585 | a settle dings its signer exactly if it falls short of the recorded promise, and weighs the missing share, all of it for another kind; no other record changes |
| Accounting.OtherKindFailsCompletely | crates/vitalis-negotiate/src/negotiator.rs:231-234 | delivering another kind adds one whole failure, no success and one ding, however much is delivered |
| Accounting.SameKindIsScoredByShare | crates/vitalis-negotiate/src/negotiator.rs:231-239 | delivering the promised kind adds the share that arrived as success and the missing share as failure |
| Sweeps.SweepExact | crates/vitalis-negotiate/src/negotiator.rs:601-637 | exactly the younger trades remain; m expired trades cost exactly m dings and m failure weight after decay |
| Sweeps.SweepReportsEach | crates/vitalis-negotiate/src/negotiator.rs:601-637 | one blamed entry per expired trade with a known counterparty |
| Sweeps.SweepOrderIrrelevant | crates/vitalis-negotiate/src/negotiator.rs:601-637 | the final state does not depend on map order |
| Sweeps.EntryShowsDings | crates/vitalis-negotiate/src/negotiator.rs:639-647 | every report entry shows its peer's prior dings plus the number of the peer's entries up to it |
| Sweeps.EntryShowsTrust | crates/vitalis-negotiate/src/negotiator.rs:639-647 | and the trust left then: decayed successes plus one over all evidence plus one, a failure for each of the peer's entries so far included |
| Sweeps.ReportsEscalate | crates/vitalis-negotiate/src/negotiator.rs:639-647 | between two entries of one peer the dings rise and the trust strictly falls |
| Provenance.HearsayIsVouched | crates/vitalis-negotiate/src/negotiator.rs:730-821 | in every reachable world each hearsay entry is a claim about that subject signed under a key bound to its origin |
| Provenance.BindingHolds | crates/vitalis-negotiate/src/negotiator.rs:386-394 | an origin nobody re-pins by hand is only ever bound to one key, however it came to be bound |
| Provenance.OnlyTheOriginSpeaks | crates/vitalis-negotiate/src/negotiator.rs:730-821 | against arbitrary relayers, every entry under an origin nobody re-pins is what its bound key signed, pinned by hand or on first use; 1 to 3 hops, never self-vouching nor about the listener |
| Provenance.RelayBound | crates/vitalis-negotiate/src/negotiator.rs:691-721 | a chain has at most two relays and never alters the embedded original |
| Provenance.RelayCarriesClaim | crates/vitalis-negotiate/src/negotiator.rs:745-785 | whoever reads a claim from any link of a chain reads the original's |
| NonInterference.HearsayNeverInterferes | crates/vitalis-negotiate/src/negotiator.rs:452-502 | two runs: with one key per identity, deleting all reports changes no balance, trade, direct evidence, answer or verdict |
| NonInterference.PinsKeptIff | crates/vitalis-negotiate/src/negotiator.rs:730-788 | a report binds nobody new if and only if it is refused, or its signer is known and its original is not reached, not signed or by a known origin |
| NonInterference.ReportHarmlessIff | crates/vitalis-negotiate/src/negotiator.rs:386-394 | a report leaves the verification of every later message unchanged if and only if that guard holds |
| NonInterference.ForeignKeyLocksOut | crates/vitalis-negotiate/src/negotiator.rs:762-769 | a report under another key locks its signer's offers out |
| Witnesses.OneReportLocksOut | crates/vitalis-negotiate/src/negotiator.rs:386-394 | one such report, before which the offer is taken and after which it is refused |
| Convergence.ClaimsConverge | crates/vitalis-negotiate/src/negotiator.rs:790-821 | reordering and repeating a batch whose winning claims agree leaves the same hearsay map |
| Convergence.FoldKeepsFreshest | crates/vitalis-negotiate/src/negotiator.rs:803-818 | what remains per origin is the freshest of the admissible claims and the prior entry |
| Convergence.GossipConverges | crates/vitalis-negotiate/src/negotiator.rs:730-821 | the same for whole signed messages through verification and relaying |
| Convergence.ConsistentAgrees | crates/vitalis-negotiate/src/negotiator.rs:803-818 | it is enough for convergence that claims of one origin, subject and cycle say one thing at one distance |
| Convergence.OrderIrrelevantIff | crates/vitalis-negotiate/src/negotiator.rs:803-818 | for any batch, every reordering leaves the same hearsay if and only if per subject and origin the freshest relevant claims not older than the prior entry agree |
| Witnesses.RelayOrderShows | crates/vitalis-negotiate/src/negotiator.rs:691-821 | a report and its own relay, received in both orders, are kept at different distances |
| HearsayInfluence.TrustBandAlways | crates/vitalis-negotiate/src/negotiator.rs:171-209 | the trust band holds after every run, however many messages arrived |
| HearsayInfluence.NobodyBlacklistedOnHearsay | crates/vitalis-negotiate/src/negotiator.rs:107-110 | in every reachable state a blacklisted peer has two dings of its own |
| HearsayInfluence.ReportIsDirectViewIff | crates/vitalis-negotiate/src/negotiator.rs:675-683 | a report quotes the direct view exactly if the collected hearsay balances |
| Witnesses.HearsayIsPassedOnAsDirect | crates/vitalis-negotiate/src/negotiator.rs:675-683 | an agent that heard one lukewarm report quotes less than its own direct view of full trust |
| LinReg.LinearRegression | crates/vitalis-reflect/src/predict.rs:57-76 | the accumulating loops compute the specified line |
| LinReg.LeastSquares | crates/vitalis-reflect/src/predict.rs:57-76 | no line has a smaller squared error, for every list of points |
| LinReg.FitRecoversLine | crates/vitalis-reflect/src/predict.rs:57-76 | collinear points are fitted exactly, and with two distinct abscissas it is their line |
| LinReg.AgreeingAbscissasFitFlat | crates/vitalis-reflect/src/predict.rs:57-76 | if all abscissas agree, one point included, the slope is zero and the intercept the mean of the ordinates |
| Predict.PredictEnergy | crates/vitalis-reflect/src/predict.rs:80-120 | the method computes the specified prediction |
| Predict.WorstResidualIsMax | crates/vitalis-reflect/src/predict.rs:96-108 | the uncertainty bounds every in-window residual and is one of them |
| Predict.LinearEnergyIsPredicted | crates/vitalis-reflect/src/predict.rs:80-120 | linear energy is predicted exactly, floored at zero, with uncertainty zero |
| Predict.LinearRunIsExtrapolated | crates/vitalis-reflect/src/predict.rs:80-120 | in the samples' own fields: energies on a line over two distinct cycles of the window are extrapolated along it |
| Predict.OneSampleIsRepeated | crates/vitalis-reflect/src/predict.rs:80-120 | a window of one sample predicts that sample's energy, floored at zero, without uncertainty |
| Predict.ThreatLikelihoodIsFraction | crates/vitalis-reflect/src/predict.rs:124-154 | the likelihood is the fraction of recent samples under threat, zero and one exactly at the extremes |
| Predict.PeerTrendIsPredicted | crates/vitalis-reflect/src/predict.rs:159-199 | a probability: current trust without history, the line's value on a linear history |
| Predict.SeriesIsOfListings | crates/vitalis-reflect/src/predict.rs:166-186 | the trust series has one point for every sample that lists the peer: its cycle and the trust first listed |
| Predict.OneListingIsRepeated | crates/vitalis-reflect/src/predict.rs:166-192 | a peer that one sample of the window lists is predicted by the trust listed there, clamped |
| Predict.PredictPeerOutcomes | crates/vitalis-reflect/src/predict.rs:159-199 | one prediction per peer of the sample, in order |
| Predict.PredictAll | crates/vitalis-reflect/src/predict.rs:202-221 | energy, threat and peers, in order |
| Predict.PredictedIff | crates/vitalis-reflect/src/predict.rs:80-192 | energy and threats are predicted exactly if there is a sample and a window; an unlisted peer by its trust now, clamped |
| Predict.ForecastLooksAhead | crates/vitalis-reflect/src/predict.rs:202-221 | everything predicted on a sample is for the horizon's number of cycles later |
| Predict.BoundedHistorySuffices | crates/vitalis-reflect/src/predict.rs:80-221 | a history cut to at least the window predicts what the full log predicts |
| Predict.EvaluateSample | crates/vitalis-reflect/src/evaluate.rs:68-99 | scores exactly the predictions that have ground truth, in order |
| Predict.EnergyScore | crates/vitalis-reflect/src/evaluate.rs:36-61 | a hit exactly inside the band of at least a billionth; the score falls linearly from one at no error to zero at its edge |
| Predict.LikelihoodScore | crates/vitalis-reflect/src/evaluate.rs:36-61 | a threat or peer call is a hit exactly if it and the truth lie on one side of one half, and scores all or nothing |
| Predict.ScoredAgainstSample | crates/vitalis-reflect/src/evaluate.rs:68-99 | what each kind is held against: the sample's energy, whether it carries a warning or worse, its first outcome of the peer if any |
| Reflector.Reflector.constructor | crates/vitalis-reflect/src/reflector.rs:51-62 | window and horizon of at least one, empty memory |
| Reflector.Evict | crates/vitalis-reflect/src/reflector.rs:113-121 | dropping from the front leaves the last cap elements |
| Reflector.Reflector.Tick | crates/vitalis-reflect/src/reflector.rs:89-127 | resolving, evicting and predicting reach the specified memory and answers |
| Reflector.Reflector.ResolveDue | crates/vitalis-reflect/src/reflector.rs:93-110 | pops and scores exactly the due prefix of the queue |
| Reflector.Reflector.Calibrate | crates/vitalis-reflect/src/reflector.rs:130-178 | the nested counting loops compute the specified summary |
| Reflector.NoPredictionLost | crates/vitalis-reflect/src/reflector.rs:89-127 | for increasing cycles the cap never evicts, at most horizon predictions are open, and each is scored once, at the first tick reaching its target |
| Reflector.QueueIsSorted | crates/vitalis-reflect/src/reflector.rs:93-110 | the queue is strictly sorted by target, so its front decides |
| Reflector.CalibrationCountsTicks | crates/vitalis-reflect/src/reflector.rs:130-178 | ticks are audited or pending; one energy and one threat score per audited prediction |
| Reflector.CalibrationMeans | crates/vitalis-reflect/src/reflector.rs:130-178 | the rates are the shares of hits among the calls of their kind, the error is the mean distance of the energy calls; zero without calls |
| Reflector.TickReturnsWhatItAudits | crates/vitalis-reflect/src/reflector.rs:93-110 | the evaluations a tick returns are exactly those it logs |
| Reflector.BoundedReflectorPredictsAlike | crates/vitalis-reflect/src/reflector.rs:112-121 | history is the last window+horizon+4 samples and every forecast equals the full log's |
| GF256.InverseLaw | crates/vitalis-replicate/src/shards.rs:8-8 | every non-zero byte has an inverse and there are no zero divisors |
| GF256.MulLaws | crates/vitalis-replicate/src/shards.rs:8-8 | multiplication of bytes is commutative, associative and has a unit |
| GF256.TimesX | crates/vitalis-replicate/src/shards.rs:8-8 | multiplying by x shifts, and an x^8 is worth x^4+x^3+x^2+1 |
| Polynomials.RootBound | crates/vitalis-replicate/src/shards.rs:46-47 | a polynomial with as many roots as coefficients vanishes |
| Polynomials.ThroughHits | crates/vitalis-replicate/src/shards.rs:46-47 | interpolation passes through all given points |
| ReedSolomon.AnyKDetermineAll | crates/vitalis-replicate/src/shards.rs:13-15 | any k shards of a code word determine every other |
| ReedSolomon.CodeWordIsPolynomial | crates/vitalis-replicate/src/shards.rs:46-47 | whatever polynomial of k coefficients the data shards have at the points 0 to k-1, all shards have at 0 to total-1 |
| ReedSolomon.Encode | crates/vitalis-replicate/src/shards.rs:46-47 | parity is written in place; data shards stay as they are |
| ReedSolomon.Reconstruct | crates/vitalis-replicate/src/shards.rs:69-75 | fills all missing shards in place, data and parity, or fails exactly on too few or unequal ones |
| ReedSolomon.ReconstructionIsExact | crates/vitalis-replicate/src/shards.rs:69-83 | data shards and whole code word come back exactly if at most total-k are missing |
| Shards.LittleEndianRoundTrip | crates/vitalis-replicate/src/shards.rs:31-31 | the length prefix reads back |
| Shards.EncodeShards | crates/vitalis-replicate/src/shards.rs:16-49 | the error cases, else the code word of the prefixed, padded, split data |
| Shards.DecodeShards | crates/vitalis-replicate/src/shards.rs:55-97 | the error cases in order, else the trimmed concatenation |
| Shards.ShardsNeverEmpty | crates/vitalis-replicate/src/shards.rs:34-39 | all shards have one positive length, so empty always means missing |
| Shards.DataShardsSpellData | crates/vitalis-replicate/src/shards.rs:40-44 | the data shards in a row are prefix, data and padding |
| Shards.ShardSizeIsLeast | crates/vitalis-replicate/src/shards.rs:34-38 | no smaller positive size would fit |
| Shards.PaddedIs | crates/vitalis-replicate/src/shards.rs:30-38 | eight little-endian bytes of length, the data, then nothing but zeros |
| Shards.DecodeRefusals | crates/vitalis-replicate/src/shards.rs:60-75 | another number of shards, impossible counts, too few shards and unequal ones are each refused |
| Shards.DataShardsAreRead | crates/vitalis-replicate/src/shards.rs:77-97 | with all data shards there they are read in a row, and a length that does not fit is refused |
| Shards.ErasureRoundTrip | crates/vitalis-replicate/src/shards.rs:16-97 | decoding any blanked encoding gives the exact data if at most parity shards are gone, and an error otherwise |
| CheckpointFormat.ToBytes | crates/vitalis-replicate/src/format.rs:57-62 | appends the body to the magic |
| CheckpointFormat.CheckpointRoundTrip | crates/vitalis-replicate/src/format.rs:57-91 | parsing a serialized checkpoint gives it back exactly if it is within the limit and version, and refuses it otherwise |
| CheckpointFormat.BodyRoundTrip | crates/vitalis-replicate/src/format.rs:57-62 | the body parses back and leaves what follows untouched |
| CheckpointFormat.SignableIsInjective | crates/vitalis-replicate/src/format.rs:48-54 | signable bytes agree exactly if everything but the seal does |
| CheckpointFormat.AcceptedReencodes | crates/vitalis-replicate/src/format.rs:68-91 | any accepted bytes, canonical or not, re-encode no longer and to the same checkpoint |
| CheckpointFormat.ParseAnswers | crates/vitalis-replicate/src/format.rs:68-91 | size, the letters VCP1, the body and the version decide in that order which error or checkpoint is answered |
| CheckpointFormat.TrailingAndTruncated | crates/vitalis-replicate/src/format.rs:68-91 | trailing bytes are ignored within the limit; a checkpoint that lost bytes at its end is never accepted |
| CheckpointFormat.VarintReads | crates/vitalis-replicate/src/format.rs:82-83 | an integer is read exactly if it ends in time and does not overflow, and is worth its base-128 digits, leading zeros or not |
| CheckpointFormat.WireExample | crates/vitalis-replicate/src/format.rs:35-62 | the bytes of a small checkpoint and of what is signed of it, written out |
| CopyLimit.CopyLimitPolicy.AuthorizeCopy | crates/vitalis-replicate/src/policy.rs:37-47 | counts up below the cap, refuses at it |
| CopyLimit.CopyLimitPolicy.RetireCopy | crates/vitalis-replicate/src/policy.rs:50-52 | counts down, wrapping at zero |
| CopyLimit.CopyLimitBound | crates/vitalis-replicate/src/policy.rs:37-52 | n interleaved callers exceed the cap by at most n-1 in every reachable state |
| CopyLimit.CopyLimitBoundIsReached | crates/vitalis-replicate/src/policy.rs:37-52 | some interleaving does reach that bound |
| CopyLimit.OneCallerNeverExceeds | crates/vitalis-replicate/src/policy.rs:37-52 | with exclusive access the cap is hard |
| Replicator.Replicator.constructor | crates/vitalis-replicate/src/replicator.rs:39-55 | nothing captured, no copies, empty log |
| Replicator.Replicator.Capture | crates/vitalis-replicate/src/replicator.rs:82-97 | holds the new checkpoint, sealed if there is a signer, and logs it |
| Replicator.Replicator.RestoreState | crates/vitalis-replicate/src/replicator.rs:114-136 | adopts only its own, verified checkpoint; each refusal leaves everything as it was |
| Replicator.Replicator.GetShards | crates/vitalis-replicate/src/replicator.rs:139-142 | shards of the serialized current checkpoint |
| Replicator.Replicator.RestoreFromShards | crates/vitalis-replicate/src/replicator.rs:145-148 | decodes, then restores |
| Replicator.Replicator.AuthorizeCopy | crates/vitalis-replicate/src/replicator.rs:156-166 | one more copy and one log entry with the new count, or neither |
| Replicator.Replicator.MigrateTo | crates/vitalis-replicate/src/replicator.rs:170-190 | target adopts and both ends log, or nothing changes anywhere |
| ReplicatorRuns.CheckpointsAreGenuine | crates/vitalis-replicate/src/replicator.rs:82-190 | in every reachable state a replicator holds only its own agent's checkpoints, and with a verifier only what it captured itself or the holder of its verifying key captured |
| ReplicatorRuns.RestoreAnswers | crates/vitalis-replicate/src/replicator.rs:114-136 | for any bytes: the error of each refusal, which changes nothing, or the payload and the adopted checkpoint |
| ReplicatorRuns.MigrationSucceedsIff | crates/vitalis-replicate/src/replicator.rs:170-172 | a migration succeeds exactly if the source holds a checkpoint of the target's agent, within size and version, whose seal the target's verifier (if any) accepts |
| ReplicatorRuns.MigrationDelivers | crates/vitalis-replicate/src/replicator.rs:170-190 | then the target holds the source's checkpoint, the source keeps it, and each log gains one entry naming the other end; otherwise nothing changes |
| ReplicatorRuns.LogsAreTruthful | crates/vitalis-replicate/src/replicator.rs:82-190 | along any run every log entry is the record of an event: its agent, reason, time and other end |
| ReplicatorRuns.ShardsAnswers | crates/vitalis-replicate/src/replicator.rs:139-142 | the refusals of sharding, or as many shards as configured, which decode to the checkpoint held |
| ReplicatorRuns.StateSurvivesShardLoss | crates/vitalis-replicate/src/replicator.rs:82-148 | captured state comes back from its shards after losing up to parity of them, exactly if the blob is within the size limit |
| ReplicatorRuns.OversizedStateIsRefused | crates/vitalis-replicate/src/format.rs:69-74 | every state larger than the limit is captured and then refused by any restore |
| ReplicatorRuns.LiveCopiesAreAudited | crates/vitalis-replicate/src/replicator.rs:156-166 | without retirements the audited authorizations read 1, 2, ..., live, and never pass the cap |
| Throttle.ThrottleIsMonotone | crates/vitalis-metabolism/src/throttle.rs:54-69 | for every preset the throttle is in [0,1] and never falls as energy rises |
| Throttle.ThrottleExtremes | crates/vitalis-metabolism/src/throttle.rs:54-69 | full rate exactly from the start up, zero exactly from the floor down |
| Throttle.ThrottleCurves | crates/vitalis-metabolism/src/throttle.rs:23-69 | the three profiles in figures: proportional below 0.10, proportional between 0.05 and 0.35, square between 0.05 and 0.50 |
| Drive.Drive.SenseAndDecide | apps/vitalis-drive/src/loop_.rs:352-359 | advances the cycle and sets the throttle by the energy fraction |
| Drive.Drive.ClassifyThreats | apps/vitalis-drive/src/loop_.rs:373-411 | the signal chosen by kill cycle, depletion and floor, classified, recorded and answered |
| Drive.Drive.Replicate | apps/vitalis-drive/src/loop_.rs:284-305 | stores the sealed checkpoint and marks the agent replicated even when the copy is refused |
| Drive.Drive.NegotiateStep | apps/vitalis-drive/src/loop_.rs:418-442 | the loop's own negotiator never has a bargain to report |
| Drive.Drive.Run | apps/vitalis-drive/src/loop_.rs:345-507 | the loop reaches the state and outcome the specification gives for its number of cycles |
| DriveRuns.RunLength | apps/vitalis-drive/src/loop_.rs:487-496 | a fresh agent runs min(max, ceil(capacity/cost)) cycles |
| DriveRuns.DeathIsPrecededByCheckpoint | apps/vitalis-drive/src/loop_.rs:345-507 | exactly one replication if the kill cycle or depletion is reached, at the first such cycle, storing that cycle and the positive energy left; none otherwise |
| DriveRuns.LegacyVerifies | apps/vitalis-drive/src/loop_.rs:258-269 | the stored checkpoint passes verification and holds the captured state, exactly if within the size limit |
| DriveRuns.EscapeIsLogged | apps/vitalis-drive/src/loop_.rs:284-305 | a run's log is one checkpoint of the state at the escape and one copy for dying hardware if copies are allowed; six shards are made |
| DriveRuns.ThrottleNeverRises | apps/vitalis-drive/src/loop_.rs:358-359 | the throttle is non-increasing over the cycles of a run |
| DriveRuns.RunThrottle | apps/vitalis-drive/src/loop_.rs:358-359 | each cycle throttles by the profile for the share of the capacity it was entered with |
| DriveRuns.LastThreatIsSticky | apps/vitalis-drive/src/loop_.rs:395-398 | once a threat was classified every later sample carries one |
| DriveRuns.OwnThreatTable | apps/vitalis-drive/src/loop_.rs:373-398 | which threat a cycle of a fresh agent raises, if and only if, by kill cycle, energy left after it and energy it was entered with |
| DriveRuns.CarriedThreat | apps/vitalis-drive/src/loop_.rs:373-398 | in numbers of the configuration: the kill in its cycle, critical starvation once the energy is spent, a warning once entered below the floor, else an earlier kill or nothing |
| DriveRuns.CarriedIsOwnIff | apps/vitalis-drive/src/loop_.rs:449-456 | a sample's threat is its cycle's own if and only if the cycle raised one or no kill lies before it |
| DriveRuns.StaleThreatIsCarried | apps/vitalis-drive/src/loop_.rs:449-456 | a concrete configuration whose second sample carries the first cycle's kill |
| DriveRuns.SamplesTell | apps/vitalis-drive/src/loop_.rs:449-456 | sample by sample what the reflector is fed: cycle, energy, capacity and carried threat, and no peers |
| DriveRuns.RunReflectsFaithfully | apps/vitalis-drive/src/loop_.rs:449-457 | the loop's reflector loses none of its predictions |

## Left out

- Floating-point rounding, infinities and NaN: all arithmetic is exact; capacity is assumed positive, since the code would produce NaN at zero.
- Overflow of cycle, ding and hop counters and of the length arithmetic in decoding: these are unbounded; only the copy counter's wrap-around is modelled.
- Mutexes: every lock is taken; poisoning is not modelled.
- Ed25519 and key generation: signatures and seals are symbolic.
- The defender's own trust-on-first-use table for checkpoint seals: a replicator's verifier has one fixed key.
- The encoding of barter messages: a payload is what it decodes to together with its length. Checkpoints are modelled byte by byte.
- The square root in the threat prediction's uncertainty: kept symbolic, since nothing reads it.
- Drive.Drive.Replicate: storage failures, which abort the original half-way, do not occur.
- Drive.Drive.Run: storage and sensor failures, which end the original run early, do not occur; host sensing and the resource ledger are absent.
- DriveRuns.DeathIsPrecededByCheckpoint: assumes positive capacity and cost per cycle.
- Update in place of single records: reputation records and pending trades are values inside the negotiator's maps, so aliasing between them cannot be expressed.
- Audit texts, log output, the command line, configuration files, the mesh simulation, WASM sandboxes, profile weights, memory migration and the adapt engine: each would add only one-branch members.
