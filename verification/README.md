# Verification of the FROST client and server

The repository is a set of tools for FROST threshold signatures: a client whose participants
generate a shared key and sign with it, a server that passes their messages on, and a tool that
puts threshold signatures into Zcash transactions. This project models its four hardest parts in
Dafny and proves what they are for.

* **Key generation.** A participant's session machine (`DkgSession`), its behaviour over whole runs
  (`DkgRuns`), the client that drives it (`DkgClient`) and when its receive loops end (`DkgLoops`),
  what clients send each other and that it is enough (`DkgCompletion`), a network of honest and corrupt
  participants (`DkgNetwork`), and the client as a part of that network (`DkgRefinement`). The main results are `Agreement`, that the echo broadcast gives all honest
  participants that finish it the same round 1 packages, whatever the corrupt ones send to whom, and
  `GatheredPackagesAgree`, the same of what the client returns. `DkgEquivocation` exhibits the attack
  that would succeed without it.
* **Signing.** The coordinator's session machine (`CoordinatorSession`), the participants and the
  coordinator around it (`Signing`), all of them in a network (`SigningNetwork`), when a session
  completes (`SigningCompletion`), and the session of honest signers (`SigningHonest`). The main results are `SessionIsAligned` and `EveryRunIsAligned`:
  message, nonce, commitment, randomizer, share and signature keep the same index from end to end.
* **Note commitment tree.** The compressed frontier (`CommitmentTree`) and the witnesses built on it
  (`Witnesses`) against the plain recursive Merkle tree, and the bit repacking of the Orchard tree
  hash (`OrchardHash`). The main results are `WitnessIsCorrect` and `ChunksSpellBothNodes`.
* **Server.** The shared state and its handlers (`Server`), all interleavings of them with the expiry
  task (`ServerRuns`), logins (`ServerLogins`) and locks (`ServerLocks`). The main results are
  `QueuesAreConserved`, `ListsAreExact`, `ChallengesAreSingleUse` and `NoDeadlock`.
* **Signing a PCZT.** Two passes over the Orchard and Ironwood bundles (`PcztSigning`), with
  `SigningIsExact` and `SigningSucceedsWhenLinesAreGood`.

State machines appear twice: as a pure step function, about which the theorems are, and as a class
that updates its fields the way the source does, each method of which is proved to do what the
function says. `dafny verify dfyconfig.toml` checks everything.

## Assumptions

* Identifiers are derived so that no two keys share one, and every participant has one
  (`View.Valid`, `DkgNetwork.Setup.Valid`).
* The channel authenticates senders, and never hands a participant its own messages (`View.Foreign`);
  the send loops skip oneself, but the machine does not check. `OwnPackageDisplacesAnother` says
  exactly what goes wrong without this.
* A message body meant for one phase does not parse in another. `Payload` says what a body parses to.
* All honest participants of a key generation hold the same list of keys, which the server gives out.
* The server draws identifiers that were never drawn before; signature checks, point arithmetic
  and the FROST operations are functions about which nothing is assumed.
* A participant draws one nonce pair per message of the session.
* The network of a key generation is more permissive than the client: it may send and receive in any
  order within a stage, and leave messages unsent. `DkgRefinement.GatherIsActions` says that what the
  client does is among what it may do.
* Words and bytes that count are those of a 64-bit machine, and an overflow is a panic, as it is in a
  build that checks for it; a build that does not wraps around instead.

## Where the code differs from its documentation, or surprises

* A duplicated echo is inserted before it is rejected; this is harmless only because every echo that
  gets that far equals the one it overwrites (`DkgSession.RejectionChangesNothing`).
* `has_round1_packages` and `has_round1_broadcast_packages` say that everybody has sent its packages,
  but both are false again once round 2 is complete. A receive loop of round 1 whose batch also brings
  the last round 2 package never ends (`DkgLoops.LoopEndsUnlessOvertaken`). It happens to two
  participants in the first loop (`FirstLoopOvertaken`) and to more in the second
  (`SecondLoopOvertaken`), with nobody at fault.
* `get_position` returns the number of leaves, not a position; `Witness::read` subtracts one, which
  underflows just on a tree with nothing in it (`Witnesses.Read`). Counting overflows just when the
  number does not fit a word, which takes 63 parents or more (`CommitmentTree.GetPosition`).
* An authentication path has `height` entries except on an empty tree, where it has one too few, and
  at height 0, where it has one too many (`Witnesses.PathLength`).
* `root` counts levels in a byte and indexes the empty roots it is given. `CommitmentTree.Root` and
  `Witnesses.ComputeAuthPath` fail just when `Computable` and `PathComputable` do not hold, as for
  a non-empty tree of 255 parents or more; trees and witnesses of up to 255 levels never fail with
  the empty roots made for their height (`TreeRoot`, `AuthenticateLeaf`).
* The repacking merges the top bit of the left node with the low bit of the right one, so the digits
  are right just when not both are set (`OrchardHash.ChunksSpellBothNodes`); the top bit of a
  canonical field element is clear.
* The expiry task clears a session from the lists of its participants only, while closing also
  clears the coordinator's. A coordinator that takes no part keeps the identifier of an expired
  session listed for good, where it can be neither read nor closed (`ServerRuns.StaleEntriesAreForGood`).

## Model

| member | source | states |
|---|---|---|
| DkgNetwork.Agreement | frost-client/src/session.rs:407-499 | In every reachable state of a network with any set of corrupt participants and any delivery order, two honest participants that finished gathering round 1 packages hold the same package for every participant of the session, corrupt ones included, and for each honest one the package it sent. |
| DkgNetwork.OneCompletionBindsAll | frost-client/src/session.rs:454-494 | With three participants or more, as soon as one honest participant completes the echo round, every other honest one has closed round 1 on the very same packages, even if it never completes. |
| DkgNetwork.EquivocationStopsCompletion | frost-client/src/session.rs:435-442 | A participant whose packages to two honest ones differ keeps both of them from ever completing the echo round. |
| DkgNetwork.FinishedMeansEveryHonestCompleted | frost-client/src/dkg/comms/http.rs:276-340 | A participant that finishes holds, from every other honest one, the round 2 package that one computed for it, and the other computed it from the same round 1 packages. |
| DkgNetwork.CheckedPackagesAreShared | frost-client/src/session.rs:435-442 | In any network state that satisfies the invariant, one participant that checked its packages and one that merely closed round 1 hold the same ones. |
| DkgNetwork.EveryPairVouched | frost-client/src/session.rs:459-487 | A full set of echoes means that every honest participant closed round 1 on the same package for every third party. |
| DkgNetwork.EchoDelivery | frost-client/src/session.rs:407-499 | Delivering any message in the echo phase keeps what a participant knows of the others true: each echo it recorded from an honest one is vouched for by that one. |
| DkgNetwork.ActionKeepsInvariant | frost-client/src/dkg/comms/http.rs:159-340 | Every send, delivery, advance, failure or message of a corrupt participant keeps the invariant of the network. |
| DkgNetwork.ExecutionKeepsInvariant | frost-client/src/dkg/comms/http.rs:159-340 | The invariant holds after any sequence of actions whatever. |
| DkgNetwork.BatchIsDeliveries | frost-client/src/dkg/comms/http.rs:200-218 | Handling a received batch up to the first rejected message is the same as delivering its messages in the network one by one, a rejection ending the participant's run. |
| DkgRefinement.GatherIsActions | frost-client/src/dkg/comms/http.rs:159-274 | A client's whole call, whatever the others do between its messages and batches, is a sequence of actions of the network that leaves the participant with exactly what the call returns, in the same state, with the same mail sent. |
| DkgRefinement.GatheredPackagesAgree | frost-client/src/dkg/comms/http.rs:159-274 | The packages a client returns are, with its own, those of any other honest participant that has finished gathering by then. |
| DkgRefinement.LoopIsPoll | frost-client/src/dkg/comms/http.rs:200-218 | A receive loop fed from the network, with others acting in between, ends as the client's loop does on the same batches. |
| DkgRefinement.Round2IsActions | frost-client/src/dkg/comms/http.rs:276-340 | The client's second call is a sequence of actions of the network as well; it finishes exactly when it returns packages. |
| DkgRefinement.ReturnedPackagesAreTheirs | frost-client/src/dkg/comms/http.rs:276-340 | What that call returns for every other honest participant is the package that one computed for this one, from what it had received. |
| DkgCompletion.GatheringCompletes | frost-client/src/dkg/comms/http.rs:159-274 | A client that is delivered what all the others send while they gather round 1 packages, each message once, in any order and in any batches, gathers exactly everybody else's package, and has sent its own round 1 mail and, with three participants or more, its echoes of all of these. |
| DkgCompletion.Round2Completes | frost-client/src/dkg/comms/http.rs:276-340 | A client that is delivered everybody's round 2 mail ends ready, with exactly the package every other participant computed for it. |
| DkgCompletion.EchoMailIsMissing | frost-client/src/dkg/comms/http.rs:223-247 | The echoes all the others send to one participant are exactly the ones it has to hear: one for each pair of different others, each repeating the package held. |
| DkgCompletion.PairIsEchoed | frost-client/src/dkg/comms/http.rs:225-246 | For every pair of different others, the echoing one's mail to a participant has the echo of the other's package, as it holds it. |
| DkgCompletion.EchoIsWanted | frost-client/src/dkg/comms/http.rs:225-234 | No echo is sent to oneself, back to its own sender, or about the recipient. |
| DkgCompletion.MailIsExact | frost-client/src/dkg/comms/http.rs:183-247 | A message is sent while gathering round 1 packages if and only if it is one's own package to somebody else, or, if echoes are still needed after the first loop, a package received then to somebody else that did not send it. |
| DkgCompletion.PollOfPaved | frost-client/src/dkg/comms/http.rs:200-218 | How the awaited messages are split into batches makes no difference to what a loop returns. |
| DkgLoops.LoopEndsUnlessOvertaken | frost-client/src/session.rs:504-536 | In either loop of round 1, with an accepted batch that takes the machine to the phase waited for or past it: the loop succeeds if and only if the batch does not bring a round 2 package from every other participant; if it does, the loop never succeeds whatever comes later. |
| DkgLoops.ReadyLoopNeverEnds | frost-client/src/dkg/comms/http.rs:200-218 | On a session that is ready, a loop of round 1 never succeeds and changes nothing. |
| DkgLoops.FirstLoopOvertaken | frost-client/src/dkg/comms/http.rs:200-218 | With two participants, one batch with both packages of the other leaves the first loop without end. |
| DkgLoops.SecondLoopOvertaken | frost-client/src/dkg/comms/http.rs:251-269 | With three participants or more, one batch with the last echo and everybody's round 2 package leaves the second loop without end. |
| DkgLoops.RejectionEndsLoop | frost-client/src/dkg/comms/http.rs:208-212 | The first message of a batch that the machine rejects ends the loop with that error, in the state before it, whatever else has arrived. |
| DkgLoops.BatchHoldsRound2 | frost-client/src/session.rs:545-578 | An accepted batch adds exactly the senders of its round 2 packages to those held. |
| DkgEquivocation.RoundOneAloneDoesNotAgree | frost-client/src/session.rs:360-378 | A reachable state in which two honest participants both closed round 1 and hold different packages of a third: what the echo round is there to catch. |
| DkgSession.StepKeepsInvariant | frost-client/src/session.rs:317-340 | In every phase any message keeps the machine's invariant: who has been heard from, that echoes repeat original packages, and that phases close exactly when complete. |
| DkgSession.EchoStep | frost-client/src/session.rs:407-499 | One echo in terms of the set of pairs heard: an acceptable one adds its pair and completes the round when all pairs are there; any other is an error and changes nothing. |
| DkgSession.EchoLedgerIsExact | frost-client/src/session.rs:407-499 | An echo is accepted if and only if it is the first of its (original sender, echoer) pair and repeats the package held; it adds one to the number accepted, and the round closes exactly when that makes (n-1)(n-2). |
| DkgSession.AcceptedExactly | frost-client/src/session.rs:317-340 | In every phase just which messages are accepted, and which echoes are answered with a mismatch or a duplicate. |
| DkgSession.CompleteMeansAllPairs | frost-client/src/session.rs:454-487 | The set-by-set completeness test is true exactly when every pair of different other participants has been heard. |
| DkgSession.AllPairsSize | frost-client/src/session.rs:401-404 | Among m other participants there are m(m-1) echoes to hear. |
| DkgSession.RejectionChangesNothing | frost-client/src/session.rs:317-340 | In every state of the invariant, a message answered with an error leaves the session exactly as it was, the duplicated echo included. |
| DkgSession.Session.SetPubkeys | frost-client/src/dkg/comms/http.rs:139-147 | Copies the session's participants into the machine and keeps its packages. |
| DkgSession.Session.Recv | frost-client/src/session.rs:317-340 | The new state and the answer are those of the step function for the current phase. |
| DkgSession.Session.HandleRound1Package | frost-client/src/session.rs:343-383 | In place, what the step function does with a round 1 package: the sender's last package is kept, and the n-1st sender closes the round, skipping echoes for two participants. |
| DkgSession.Session.HandleRound1PackageBroadcast | frost-client/src/session.rs:407-499 | In place, what the step function does with an echo, including the insertion before the duplicate is noticed. |
| DkgSession.Session.HandleRound2Package | frost-client/src/session.rs:545-578 | In place, what the step function does with a round 2 package: ready when its senders are those of round 1. |
| DkgRuns.RunKeepsInvariant | frost-client/src/session.rs:317-340 | The machine's invariant holds after any sequence of messages, accepted or not. |
| DkgRuns.RunsOnlyAdvance | frost-client/src/session.rs:317-340 | Over any run phases only move forward, participants never change, round 1 packages are frozen once collected, and a finished session ignores everything. |
| DkgRuns.PhasesHoldEveryOther | frost-client/src/session.rs:360-378 | Whenever round 1 packages can be fetched they are from exactly all the others, and likewise round 2 packages; with two participants the echo phase never occurs. |
| DkgRuns.OwnPackageDisplacesAnother | frost-client/src/session.rs:353-361 | The machine does not itself refuse a participant's own package: round 1 closes on exactly the others if and only if neither this message nor an earlier one came from the participant itself, and otherwise somebody is missing. |
| DkgRuns.Round2TakesFromRound1 | frost-client/src/session.rs:556-559 | In round 2, unlike in round 1, a package is taken if and only if it is from a participant whose round 1 package is held, so never from oneself. |
| DkgRuns.EchoRoundAcceptsItsBudget | frost-client/src/session.rs:401-404 | Over any run, exactly (n-1)(n-2) echoes have been accepted once the echo round is passed, and as many as pairs were heard while it is open. |
| DkgRuns.Round1KeepsLatest | frost-client/src/session.rs:353-378 | While a sender is missing the last package of each is the one held, and the set of the latest packages is what the round closes with. |
| DkgRuns.Round1IgnoresOrder | frost-client/src/session.rs:343-383 | One round 1 package per sender leaves the same state in any order of delivery. |
| DkgRuns.EchoesInAnyOrder | frost-client/src/session.rs:407-499 | Missing echoes are accepted in whatever order they come, and the round closes exactly when together with those heard before they cover every pair. |
| DkgRuns.Round2KeepsLatest | frost-client/src/session.rs:556-573 | While a sender is missing the last round 2 package of each is the one held, and the session is ready with them as soon as nobody is missing. |
| DkgRuns.Round2IgnoresOrder | frost-client/src/session.rs:545-578 | One round 2 package per sender leaves the same state in any order of delivery. |
| DkgClient.GatheredFromEveryOther | frost-client/src/dkg/comms/http.rs:159-274 | A client that returns from gathering round 1 packages has one from every other participant, the ones its machine passed the echo round with. |
| DkgClient.PollReaches | frost-client/src/dkg/comms/http.rs:200-218 | A receive loop that ends without an error has reached what it waits for. |
| DkgClient.PollKeepsInvariant | frost-client/src/dkg/comms/http.rs:251-269 | Whatever batches a receive loop gets, the machine's invariant holds when it ends. |
| DkgClient.HttpComms.PollUntil | frost-client/src/dkg/comms/http.rs:200-218 | The nested loops do what the recursive description of polling says: every message of a batch is handled until one is rejected, and the phase is looked at only between batches. |
| DkgClient.HttpComms.SendRound1 | frost-client/src/dkg/comms/http.rs:183-196 | Sends exactly one message with one's own package to each other participant. |
| DkgClient.HttpComms.SendEchoesTo | frost-client/src/dkg/comms/http.rs:230-246 | Sends one recipient every package received but the recipient's own. |
| DkgClient.HttpComms.SendEchoes | frost-client/src/dkg/comms/http.rs:223-247 | Sends exactly each package received to each participant that is neither oneself nor its sender. |
| DkgClient.HttpComms.GetRound1Packages | frost-client/src/dkg/comms/http.rs:159-274 | The machine's state, the mail sent and the result are those of the two loops in turn, the echoes and the second loop only if they are still needed. |
| DkgClient.HttpComms.SendRound2 | frost-client/src/dkg/comms/http.rs:283-303 | Succeeds if and only if there is a package for every other participant, and has then sent each its own; if it fails it names one without a package, and has sent a part of the mail. |
| DkgClient.HttpComms.GetRound2Packages | frost-client/src/dkg/comms/http.rs:276-340 | If it succeeds everything was sent and the packages returned are those the machine got ready with; if a package is missing the machine is untouched; if the loop fails, everything was sent and the machine is as the loop leaves it. |
| CoordinatorSession.StepKeepsInvariant | frost-client/src/session.rs:85-100 | Any message keeps the invariant: vectors have one entry per message, and commitments close on exactly the required number of signers. |
| CoordinatorSession.RunKeepsInvariant | frost-client/src/session.rs:85-100 | That invariant holds after any sequence of messages. |
| CoordinatorSession.AcceptedExactly | frost-client/src/session.rs:85-100 | A vector is accepted if and only if it is of the kind collected, has one entry per message, and is from a participant, for shares one that committed. |
| CoordinatorSession.RejectionChangesNothing | frost-client/src/session.rs:85-100 | A message answered with an error leaves the session as it was. |
| CoordinatorSession.CommitmentsAreFrozen | frost-client/src/session.rs:114-133 | Once collected, commitments never change, and the shares close on exactly the same signers. |
| CoordinatorSession.TransposeIsExact | frost-client/src/session.rs:170-176 | Turning one vector per signer into one map per message puts every entry in its place, and the vectors can be recovered from the maps. |
| CoordinatorSession.SharesMatchCommitments | frost-client/src/session.rs:229-250 | Over any run, commitments and shares are from the same required number of signers with one entry per message, and both are handed out by message without loss. |
| CoordinatorSession.CommitmentsKeepLatest | frost-client/src/session.rs:119-133 | While signers are missing the last vector of each is the one held, and the last missing signer closes the phase. |
| CoordinatorSession.CommitmentsIgnoreOrder | frost-client/src/session.rs:103-138 | One commitment vector per signer leaves the same state in any order. |
| CoordinatorSession.SharesKeepLatest | frost-client/src/session.rs:210-222 | While a signer is missing the last share vector of each is the one held, and the session is ready once all that committed have answered. |
| CoordinatorSession.SharesIgnoreOrder | frost-client/src/session.rs:190-227 | One share vector per signer leaves the same state in any order. |
| CoordinatorSession.Session.Recv | frost-client/src/session.rs:85-100 | The new state and the answer are those of the step function for the current phase. |
| CoordinatorSession.Session.HandleCommitments | frost-client/src/session.rs:103-138 | In place, what the step function does with a vector of commitments. |
| CoordinatorSession.Session.HandleSignatureShare | frost-client/src/session.rs:190-227 | In place, what the step function does with a vector of shares. |
| Signing.SessionIsAligned | frost-client/src/coordinator/cli.rs:23-111 | A completed session has exactly one signature per message; package m carries message m and each honest signer's commitment to its m-th nonce, its share m was made with that nonce, package and randomizer m, and signature m aggregates package, shares and randomizer m. |
| SigningNetwork.EveryRunIsAligned | frost-client/src/participant/cli.rs:75-114 | In every run of a network of honest participants that commit and answer the request they are sent and corrupt ones that send anything, a session that completes is aligned as above, and its signatures are for the request that was sent. |
| SigningNetwork.ExecutionKeepsInvariant | frost-client/src/participant/cli.rs:83-111 | In every such run what bears an honest key is its commitments or its shares for the request, on the wire and in what the coordinator received before and after it. |
| Signing.MessageIsAligned | frost-client/src/coordinator/cli.rs:62-99 | The same for one message, from what the session holds at the end of each of its two loops. |
| Signing.SharesLineUp | frost-client/src/participant/cli.rs:23-59 | A participant that signs returns one share per message, none lost to zipping, each made with that message's own package, nonce and randomizer. |
| Signing.SignsWhenEachDoes | frost-client/src/participant/cli.rs:28-57 | A participant signs if and only if it has a nonce and, in a rerandomized session, a randomizer for every package, and each single signature succeeds. |
| Signing.Gather | frost-client/src/participant/cli.rs:39-57 | Collecting results gives all values in order, or the first error. |
| Signing.GatherCommitments | frost-client/src/coordinator/comms/http.rs:88-173 | The first loop, if it succeeds, ends with commitments of the required number of signers, one per message each. |
| Signing.PollKeepsInvariant | frost-client/src/coordinator/comms/http.rs:147-164 | Whatever batches arrive, the session's invariant holds, and a loop that ends without an error got what it waited for. |
| Signing.PollBefore | frost-client/src/coordinator/comms/http.rs:147-164 | Commitments held of honest signers when the first loop ends are those they sent. |
| Signing.PollAfter | frost-client/src/coordinator/comms/http.rs:212-229 | Shares held of honest signers when the second loop ends are those they computed for the request, and the signers are still the ones that committed. |
| Signing.HttpComms.PollUntil | frost-client/src/coordinator/comms/http.rs:147-164 | The nested loops do what the recursive description of polling says. |
| Signing.HttpComms.SendSigningPackage | frost-client/src/coordinator/comms/http.rs:186-208 | Every key of the session is sent the request, and nobody else. |
| Signing.HttpComms.GetSigningCommitments | frost-client/src/coordinator/comms/http.rs:88-173 | Returns the commitments of the first loop by message and keeps the session's keys, or fails leaving the keys as they were; more than 255 messages are refused, and none at all by the server. |
| Signing.HttpComms.SendSigningPackageAndGetShares | frost-client/src/coordinator/comms/http.rs:175-244 | Sends the request to every key of the session and returns the shares of the second loop by message. |
| Signing.HttpComms.SignMessages | frost-client/src/coordinator/cli.rs:23-111 | In place, the whole of the coordinator's session; if it succeeds every signer was sent the very request the signatures are for. |
| SigningCompletion.AnsweredSessionCompletes | frost-client/src/coordinator/cli.rs:23-111 | Whenever as many signers as required commit once and answer once, in any order and split into any batches, both loops end with what these signers sent, entry by entry; and the session completes, with a signature per message, if and only if aggregation succeeds on each message's own package and shares. |
| SigningHonest.HonestSessionCompletes | frost-client/src/coordinator/cli.rs:23-111 | When every signer is honest, commits and signs, in any order and batches, the request is the one their nonces fix, the shares gathered for each message are exactly their signatures of its package with its nonce and randomizer, and the session completes if and only if these aggregate, message by message. |
| SigningHonest.SignerAnswers | frost-client/src/participant/cli.rs:75-114 | An honest signer answers such a request if and only if each of its single signatures succeeds, with exactly these. |
| SigningHonest.RequestIsFixed | frost-client/src/coordinator/cli.rs:42-46 | Once all honest signers have committed, the request has for each message its own package, with exactly every signer's commitment to its nonce for that message. |
| SigningCompletion.RejectionEndsLoop | frost-client/src/coordinator/comms/http.rs:155-158 | The first message of a batch that the session rejects ends the loop with that error, in the state before it, whatever else has arrived. |
| SigningCompletion.PollIsRun | frost-client/src/coordinator/comms/http.rs:147-164 | How the awaited messages are split into batches makes no difference to the state a loop ends in. |
| CommitmentTree.FrontierHasMerkleRoot | zcash-sign/src/transaction_plan.rs:203-226 | For the frontier of any leaves, the empty tree included, the root that is computed is the root of the plain Merkle tree over these leaves padded to any height that is not below the frontier's. |
| CommitmentTree.Root | zcash-sign/src/transaction_plan.rs:203-226 | The loops compute the recursive description of the root, and fail exactly when an empty root is missing or the byte that counts levels overflows. |
| CommitmentTree.TreeRoot | zcash-sign/src/transaction_plan.rs:203-226 | With the empty roots made for its height, up to 255, the frontier of any leaves has its root computed without fail, and it is the plain Merkle root. |
| CommitmentTree.FrontierIsComputable | zcash-sign/src/transaction_plan.rs:212-224 | No index is out of range and no byte overflows for the frontier of leaves that fit. |
| CommitmentTree.EmptyRoots | zcash-sign/src/transaction_plan.rs:388-397 | Entry d is the root of an empty tree of height d, for each d up to the height. |
| CommitmentTree.MergeReachesTop | zcash-sign/src/transaction_plan.rs:213-220 | Joining a block with the parents from its level up gives the block at the top of the frontier. |
| CommitmentTree.PositionBits | zcash-sign/src/transaction_plan.rs:186-201 | In any non-empty tree, bit i of one less than the count is set exactly when the tree keeps a left sibling at level i: `right` for bit 0, `parents[i-1]` above. |
| CommitmentTree.PositionIsLeafCount | zcash-sign/src/transaction_plan.rs:186-201 | For the frontier of any leaves the number computed is how many leaves there are. |
| CommitmentTree.GetPosition | zcash-sign/src/transaction_plan.rs:186-201 | The reversed doubling loop computes the recursive value of the parents plus the two leaf slots, and overflows exactly when that does not fit a word of 64 bits. |
| Witnesses.WitnessIsCorrect | zcash-sign/src/transaction_plan.rs:255-296 | For every sequence of leaves and every witness of leaf p in it, the authentication path has exactly `height` entries, entry i is the root of the sibling block of p at level i, and hashing the leaf up the path by the bits of the stored position gives the root of the whole tree. |
| Witnesses.AuthenticateLeaf | zcash-sign/src/sign_ywallet.rs:107-115 | A witness that is read, with or without a cursor, has its leaf's own position; with the empty roots made for the height, up to 255, the loops give it a path without fail, with one sibling root per level, that leads from its leaf to the plain Merkle root. |
| Witnesses.WitnessIsComputable | zcash-sign/src/transaction_plan.rs:261-295 | The cursor of a witness fits below the level it is used at, so no index is out of range and no byte overflows on the way. |
| Witnesses.Read | zcash-sign/src/transaction_plan.rs:298-316 | The stored position is one less than the number of leaves; reading fails exactly when that number does not fit a word or the tree has nothing in it. |
| Witnesses.ReadIsWitness | zcash-sign/src/transaction_plan.rs:305-313 | What is read is a witness of its leaf, with an empty cursor where there is none. |
| Witnesses.EveryLeafIsRead | zcash-sign/src/transaction_plan.rs:298-316 | Every leaf whose position fits has a witness to be read, and one without a cursor if no sibling of it is partly filled. |
| Witnesses.EveryLeafHasAWitness | zcash-sign/src/transaction_plan.rs:152-162 | Every leaf of every sequence has a witness, which is read back as it is if and only if its position fits; so the statement above is about something. |
| Witnesses.PathEntryIsSibling | zcash-sign/src/transaction_plan.rs:255-296 | The node chosen for level d, from the tree, a filler, the cursor or an empty root, is the root of the sibling block there. |
| Witnesses.CursorSibling | zcash-sign/src/transaction_plan.rs:266-268 | The root of the cursor at its level is the root of the partly filled sibling block. |
| Witnesses.LateSibling | zcash-sign/src/transaction_plan.rs:269-271 | Sibling blocks above the partly filled one are empty. |
| Witnesses.PathLength | zcash-sign/src/transaction_plan.rs:274-295 | The path has as many entries as the height if and only if the tree is non-empty and the height positive, or the tree empty and the height 0. |
| Witnesses.ComputeAuthPath | zcash-sign/src/transaction_plan.rs:255-296 | The loop, with the filler's captured variables, computes the path as described level by level, and fails exactly when a filler that is used can not be had. |
| Witnesses.NextFiller | zcash-sign/src/transaction_plan.rs:261-272 | Each use of the filler gives the next filled node, then once the cursor's root, then empty roots, and fails exactly when that root can not be had. |
| Witnesses.FrontierRepresents | zcash-sign/src/transaction_plan.rs:164-169 | Every sequence of leaves has a frontier, with no level above the last in use. |
| OrchardHash.ChunksSpellBothNodes | zcash-sign/src/transaction_plan.rs:344-374 | The 51 values are ten-bit digits, least significant first, of left + 2^255 (right mod 2^255), if and only if the left node's top bit and the right node's low bit are not both set. |
| OrchardHash.ChunksAreInjective | zcash-sign/src/transaction_plan.rs:344-374 | Two pairs of field elements with the same chunks are the same pair: the repacking loses no bits. |
| OrchardHash.PackedIsMessage | zcash-sign/src/transaction_plan.rs:344-352 | For a left node with its top bit clear the packed bits are the low 255 bits of both nodes one after the other. |
| OrchardHash.ChunksAreDigits | zcash-sign/src/transaction_plan.rs:357-374 | The chunks of any bit string are the base-1024 digits of the number it stands for. |
| OrchardHash.BufferBit | zcash-sign/src/transaction_plan.rs:344-352 | After the in-place shift bit i of the 64 bytes is bit i of the packed message. |
| OrchardHash.ChunkAt | zcash-sign/src/transaction_plan.rs:358-365 | The ten bits cut out of the word at a chunk's first byte are that chunk; a 16-bit window always suffices. |
| OrchardHash.ReadWord | zcash-sign/src/transaction_plan.rs:358-364 | Reads the two adjacent bytes of the joined nodes, on either side of the border or across it, with every index in range. |
| OrchardHash.Repack | zcash-sign/src/transaction_plan.rs:345-352 | Shifts the right node down one bit in place and its lowest bit into the left node's top bit. |
| OrchardHash.NodeCombineInner | zcash-sign/src/transaction_plan.rs:338-376 | Whatever reads off what an accumulator has absorbed finds the level and then 51 ten-bit values in it; these are the base-1024 digits of left + 2^255 (right mod 2^255) if and only if the left node's top bit and the right node's low bit are not both set. |
| OrchardHash.AbsorbsInOrder | zcash-sign/src/transaction_plan.rs:357-374 | Absorbing chunks leaves every one of them in the accumulator, in order. |
| ServerRuns.QueuesAreConserved | frostd/src/functions.rs:191-283 | Over every interleaving, for every slot of every live session, what was addressed to it is what was handed out from it followed by its queue, in order and once; no queue exists for a key that takes no part; and of a session that is gone nothing was handed out that was not sent. |
| ServerRuns.StepConservesQueue | frostd/src/functions.rs:226-274 | Each request or expiry step keeps that conservation. |
| ServerRuns.OnlyOwnerDrains | frostd/src/functions.rs:255-276 | A queue is emptied only by a member it belongs to, the coordinator's by the coordinator and a participant's by that participant, who gets all of it; any other step at most adds to its end. |
| ServerRuns.MembersReadTheirOwn | frostd/src/functions.rs:243-283 | A receive is accepted if and only if it is from a member of a live session; a coordinator that asks as such gets and empties the coordinator's queue, anybody else exactly its own, and no other queue changes. |
| ServerRuns.SendReachesThoseNamed | frostd/src/functions.rs:191-239 | A send is accepted if and only if the message is not too big, the session is live, the sender is a member and everybody named is a participant; it then reaches the coordinator if nobody is named, and otherwise each key named, as often as it is, and nobody else; the error says which condition failed. |
| ServerRuns.CopiesOfMentions | frostd/src/functions.rs:226-235 | A participant gets as many copies of a message as it is named times. |
| ServerRuns.OnlyMembersAreHeard | frostd/src/functions.rs:216-235 | Over every interleaving, every waiting message is from a member of its session and within the size limit. |
| ServerRuns.OtherSessionsUntouched | frostd/src/functions.rs:191-283 | A step that does not name a session neither starts, ends nor changes it. |
| ServerRuns.PushAllAppends | frostd/src/functions.rs:226-235 | Sending appends one copy of the message to a slot for every time the slot is named, and touches no other slot. |
| ServerRuns.ListsAreExact | frostd/src/functions.rs:103-142 | Over every interleaving with the two-step expiry, a session is listed under a key exactly when it is live and the key is a member, or it expired and is being cleaned up likewise, or it expired and the key coordinated it without taking part. |
| ServerRuns.StepKeepsListExact | frostd/src/functions.rs:287-324 | Each request, expiry or clean-up step keeps that. |
| ServerRuns.CreatedAsAsked | frostd/src/functions.rs:103-142 | A session is created with exactly the keys, coordinator and message count asked for and listed under exactly these keys and the coordinator, unless the count is zero. |
| ServerRuns.ClosedIsGone | frostd/src/functions.rs:287-324 | A session that its coordinator closes is gone at once and for good, whatever happens: it is not live and under nobody's list. No other session is touched. |
| ServerRuns.AccessIsExact | frostd/src/functions.rs:162-187 | Over every interleaving just the members of a live session can see it, with the message count, keys and coordinator it was asked for with, and just its coordinator can close it; with the error in each other case. |
| ServerRuns.ListIsRightUnlessStale | frostd/src/state.rs:99-107 | With no clean-up pending, a user's list is its live sessions and nothing else if and only if it coordinated no expired session from outside. |
| ServerRuns.StaleEntriesAreForGood | frostd/src/state.rs:103-107 | Such an entry is listed from then on whatever happens, can not be read and can not be closed. |
| ServerRuns.StaleEntryExists | frostd/src/state.rs:99-107 | Three steps lead to such an entry. |
| Server.AppState.HandleCreateNewSession | frostd/src/functions.rs:103-142 | In place: the session is live and listed under each participant and the coordinator; a message count of zero is refused. |
| Server.AppState.HandleSend | frostd/src/functions.rs:191-239 | In place: the message is queued for each recipient named, or the coordinator if none is, unless it is too big, the session is unknown, or sender or recipient is not in it. |
| Server.AppState.HandleReceive | frostd/src/functions.rs:243-283 | In place: the caller's own queue is drained and returned. |
| Server.AppState.HandleCloseSession | frostd/src/functions.rs:287-324 | In place: for its coordinator only, the session goes from the live ones and from all its lists. |
| Server.AppState.RemoveFromLists | frostd/src/functions.rs:311-316 | The loop removes the session from the list of each of the given keys. |
| Server.AppState.CleanExpired | frostd/src/state.rs:101-107 | Second half: it is removed from its participants' lists and nothing else changes. |
| Server.AppState.HandleLogin | frostd/src/functions.rs:53-85 | A token is issued exactly for a well-formed key, a good signature and a challenge still there, which is then gone; otherwise nothing changes. |
| ServerLogins.ChallengesAreSingleUse | frostd/src/functions.rs:53-85 | Over every interleaving, logins that all verify before taking the lock included, tokens ever issued map one to one into challenges ever issued, each spent for good, and a token stands for the key whose signature of its challenge was good. |
| ServerLogins.ExecutionKeepsInvariant | frostd/src/functions.rs:71-80 | Over every interleaving no challenge is behind two logins, whether they have their token yet or not. |
| ServerLogins.UninterruptedLogin | frostd/src/functions.rs:53-85 | The three steps a login is cut into do, uninterrupted, what the handler does. |
| ServerLocks.ProgramsAreOrdered | frostd/src/functions.rs:37-324 | Every handler and every background task takes locks only in one fixed order and gives all back. |
| ServerLocks.LocksAreExclusive | frostd/src/state.rs:59-71 | In every reachable state a lock held for writing is held by one thread only. |
| ServerLocks.NoCycleOfWaiters | frostd/src/functions.rs:292-293 | No reachable state has a cycle of threads each waiting for the next, for any number of handlers and tasks. |
| ServerLocks.NoDeadlock | frostd/src/state.rs:95-107 | In every reachable state in which somebody has not finished somebody can go on. |
| ServerLocks.WaitsClimb | frostd/src/functions.rs:115-116 | Whoever is waited for and waits itself waits for a lock later in the order. |
| PcztSigning.SigningIsExact | zcash-sign/src/sign.rs:96-159 | After signing, each spend a randomizer was shown for carries the signature entered for it, which is good for it; every other spend of either bundle is unchanged; and no spend of an inspected bundle awaits a signature. |
| PcztSigning.SigningSucceedsWhenLinesAreGood | zcash-sign/src/sign.rs:96-159 | A transaction is written if and only if every inspected bundle parses, each line entered is a signature that is good for the spend it was asked for, and the transaction with exactly these filled in can be serialized; what is written is that. |
| PcztSigning.BundlesAreSignedWhenLinesAreGood | zcash-sign/src/sign.rs:101-153 | Both passes succeed if and only if every inspected bundle parses and each line entered is good for its own spend. |
| PcztSigning.SignedIsFilled | zcash-sign/src/sign.rs:105-153 | The signed transaction is the original with the k-th line in the k-th spend that awaits a signature, Orchard before Ironwood, and nothing else changed. |
| PcztSigning.RandomizerOfLine | zcash-sign/src/sign.rs:109-128 | The randomizer shown for a line belongs to the spend with as many waiting ones before it. |
| PcztSigning.CollectIsExact | zcash-sign/src/sign.rs:164-176 | The first pass finds exactly the spends with a randomizer and no signature, each once and in order. |
| PcztSigning.RandomizersAreExact | zcash-sign/src/sign.rs:108-128 | Over all pools it finds exactly those spends, and no pool and index twice. |
| PcztSigning.EnteredIndicesFit | zcash-sign/src/sign.rs:187-187 | Every index found in the first pass is valid in the second. |
| PcztSigning.ApplyAllIsExact | zcash-sign/src/sign.rs:179-192 | Signatures for different spends are all applied, each to its own, if and only if all are good; the other spends stay as they were. |
| PcztSigning.PoolsAreIndependent | zcash-sign/src/sign.rs:135-153 | Each pool ends up as its own signatures alone leave it, and the whole succeeds if and only if each pool does. |
| PcztSigning.CollectRandomizers | zcash-sign/src/sign.rs:164-176 | The loop collects the index and randomizer of each spend that awaits a signature. |
| PcztSigning.PromptForSignatures | zcash-sign/src/sign.rs:247-269 | Reads one signature per randomizer and pairs it with that randomizer's pool and index, or fails on a bad line. |
| PcztSigning.ApplySignatures | zcash-sign/src/sign.rs:179-192 | Puts the signatures into the bundle in place; if one is refused, exactly those before it are in. |
| PcztSigning.ApplyToBundle | zcash-sign/src/sign.rs:142-152 | One pool's pass: nothing at all without signatures for it, otherwise parsing and then applying them. |
| PcztSigning.ApplyPass | zcash-sign/src/sign.rs:135-153 | The second pass over the pools, each with its own signatures, up to the first failure. |
| PcztSigning.Sign | zcash-sign/src/sign.rs:96-159 | Both passes and the serialization, with every error on the way. |

## Left out

- Progress of a key generation in general: it completes if everything is delivered phase by phase, but a message of the next phase that arrives early ends the run, and a client whose one batch completes two phases sends no echoes.
- FROST, RedPallas, XEdDSA and Noise: the operations are functions about which nothing is assumed, and the cipher objects are not modelled.
- Curve arithmetic and the Sinsemilla generators: absorbing a chunk is one uninterpreted step.
- Codecs (JSON, postcard, hex, the byte formats of trees and witnesses): a message is what it parses to.
- HTTP, TLS, routing, sockets, prompts, files, arguments and the configuration.
- Clocks: a session, challenge or token may time out at any moment; renewal of a session's timeout is not modelled.
- The order in which mail is sent: an outbox is a set of messages, or one request per key.
- DkgClient.HttpComms.SendRound2: which part of the mail was sent before it failed is not stated, as it follows the order of a hash map.
- ServerLocks.NoDeadlock: fairness of the locks and waiting behind queued writers are not modelled; with the fixed order they can delay but not block.
- The auxiliary message of a signing request, logging in before a session, closing it afterwards and the clean-up after an error.
- The trusted dealer, the command line and socket communication, contacts and groups.
- Computing the signature hash and the version of a transaction: both are inputs of `PcztSigning.Sign`.
- Signing of ywallet plans, which the source disables.
