# Verification of the attestation service

The service signs two kinds of statement about a chain: "block `h` has timestamp `t`" and "at block `h` these
commitment paths hold these values". A light client elsewhere acts on the signatures, so everything depends on what a
signature is allowed to mean. This project models the service together with the chain it watches and proves what every
signature means, in every interleaving of requests, retries, blocks and reorganisations.

## The model

**The chain** (`Ledger`, `World`). A chain is a list of blocks carrying router operations: send, receive, write an
acknowledgement, acknowledge, time out. The store at a height is the fold of those operations; an operation whose guard
fails changes nothing. Sending inserts a packet commitment, acknowledging or timing out deletes it; acknowledgements and
receipts are append-only; a receive at or after the packet's timeout, or without the counterparty's proof, is refused.
These rules, and block times that never decrease, are the premises of the Solana audit; the contracts themselves are not
part of this repository. The chain evolves by producing blocks, finalizing, and reorganising at most `maxReorg` trailing
blocks into at least as many.

**The adapters** (`Paths`, `Adapters`, `World.Finalized`). Each adapter is its decoder, composed with what an honest
node of its chain answers about one abstract store: EVM by the Keccak hash of the commitment path with zero for absence,
Cosmos by client and sequence with empty bytes (or the receipt flag), Solana by account with an 8-byte discriminator, at
the slot its node takes for the last finalized one, whatever slot was asked for.

**The service** (`Service`). A step machine whose steps are single RPC attempts, the collection of a batch, the call to
the signer, the middleware's record, the arrival of a request and the events of the chain. `Run` takes any finite list
of steps, in any order; a step that is not enabled changes nothing. Each RPC attempt fails, answers "no such block" (EVM
only), or answers truthfully about the chain as it is at that step; a Solana node may be up to `slotLag` slots behind. A
request keeps its phase, its RPC attempts and its ended tasks; the server keeps the signer's log and the counters.
`Traces` exhibits single runs: the cases in which something fails are runs of this machine.
`Replies` says what each single reply leads to, `Outcomes` explains every answer of every run from the replies, and the
soundness theorems say what the signed answers mean.

**The step-by-step code** is imperative here too: `Metrics.Metrics` is the process-wide registry, empty until
initialised; `Retry.WithRetryBackoff` is the retry loop; `Batch.CreatePacketsAttestation` drives the packet tasks in an
array in any polling order and collects them in input order; `Gate.ValidateHeight`, `Signing.TaggedSigningInput` and
`Labels.PascalToSnake` follow their sources. The functions that specify these methods are the ones the machine uses.

**Signing** (`Abi`, `Encodings`, `Signing`). A codec for ABI words, byte strings, tuples and dynamic arrays, from
"Formal Specification of the Encoding" in the Solidity Contract ABI Specification, is proved to round-trip for every
type and value; the two attested structs and `Packet` are instances. The commitment paths are those of the path-space
section of ICS-24 for IBC v2.

## Assumptions

- SHA-256, Keccak-256 and the packet commitment are arbitrary functions. No injectivity is assumed: a theorem that needs
  it concludes "..., or these two named inputs collide". The packet commitment is not the zero word.
- `Signing.Ideal`: signatures have 65 bytes, and recovery yields the key's address for the signed digest and no other.
- `Soundness.Sane`: reorganisations are no deeper than `finality_offset` on EVM with an offset and do not happen on
  Cosmos; a finalized block is never replaced; Solana accounts carry their 8-byte discriminator.
  `Exactness.SignsTruthIffSettles` shows that the assumption on reorganisations is exactly what truthful signing needs.
- The node is trusted to answer truthfully when it answers. On Solana its answers may be stale: the service neither asks
  for a slot nor looks at the one it is answered from. `slotLag` bounds how far behind a node may be, and the theorems
  say what each lag allows: receipt attestations are true at the slot they name if and only if it is 0
  (`StaleReads.ReceiptsTrueIffUpToDate`), and timeouts are safe if and only if it is at most 1
  (`StaleReads.TimeoutsSafeIffOneBehind`).
- A Cosmos node answers a query at height 0 from block 0. The query library is not in this repository; nodes that take
  height 0 for the latest height would answer such a request, which the gate accepts, from another block.
- No request is cancelled half-way (the metric laws depend on it).

## Where the code and its documentation differ

- `apps/ibc-attestor/src/adapter/solana.rs:188-202` reports "at least 40" bytes, but only exactly 40 are accepted
  (`Adapters.SolanaAcceptsExactly40`).
- A present receipt is `unexpected_receipt` and InvalidArgument on EVM and Solana, but an adapter error and Internal,
  uncounted, on Cosmos (`Attestor.AdapterRefinement`).
- The Solana audit's case table says that receipt attestations are true at the slot they name and that in its Case 2
  packet and acknowledgement attestations are not; the API does not say so. The theorems agree with the table and make it
  exact. Receipts: `LatestSlot.ReceiptTrueAtHeight`. Packets and acknowledgements: Case 2 happens
  (`CaseTwo.AuditCaseTwo`, `CaseTwo.AuditCaseTwoAck`), and they are true at that slot exactly when the packet had been
  sent, or the acknowledgement written, by then (`LatestSlot.PacketTrueAtHeightIffSent`,
  `LatestSlot.AckTrueAtHeightIffWritten`). The table's reasons why relaying them is sound all the same:
  `LatestSlot.PacketSentAndOpen`, `LatestSlot.AckMeansReceived`, `LatestSlot.AckPersists` and
  `Timeouts.AckExcludesTimeout`. The table takes it for granted that the read is not behind the gate; see above.
- An observed lag need not be negative for a rejected request: at `finalized >= i64::MAX` it is zero
  (`Gate.LagAndRejection`).

## Model

| member | source | states |
|---|---|---|
| Soundness.RunSound | apps/ibc-attestor/src/rpc/attestor.rs:80-136 | main theorem: in every run each logged signature is over a claim that passed the gate, answers its request and is true of the chain as it stands: the block's own timestamp, or for each packet in order a fact of the store at the requested height (on Solana at a finalized slot at most `slotLag` before it) |
| Soundness.ReactSound | apps/ibc-attestor/src/rpc/attestor.rs:184-206 | every step a request takes keeps what it has established so far true, whatever the node answers |
| Soundness.ClaimPersists | apps/ibc-attestor/src/adapter/evm.rs:102-121 | once true, a claim stays true of every later chain |
| Soundness.AnswerSound | apps/ibc-attestor/src/adapter/solana.rs:157-176 | an answered read is true at the block it was read at, and that block lies in the range the claim speaks of |
| Soundness.GatherSound | apps/ibc-attestor/src/rpc/attestor.rs:176-182 | a gathered batch is a sound claim with the request's height and packets, or fails with the error of its first failing packet |
| Outcomes.RunExplained | apps/ibc-attestor/src/rpc/attestor.rs:67-137 | in every run every answer of the three RPCs is explained by the request's RPC attempts and the chain: which error and why (three attempts without a reply, a missing block, refused at the gate, beyond a Cosmos height, a time that is no u64, undecodable, the first failing packet), or what the height, the block's own time or the packets' items are, signed or with the signer's failure |
| Outcomes.AnsweredHeightFinal | apps/ibc-attestor/src/rpc/attestor.rs:67-78 | a height that latest_height answered is finalized on every later chain |
| Outcomes.AnsweredHeightPasses | apps/ibc-attestor/src/rpc/attestor.rs:67-78 | whoever asks for an attestation at or below it later passes the gate of an up-to-date node |
| Replies.HeightReplied | apps/ibc-attestor/src/rpc/attestor.rs:140-164 | a height reply is answered as it is, or lets through exactly the heights up to it, with gauge, exact lag and rejection; it is the finalized height unless a Solana node lags |
| Replies.HeightNotReplied | apps/ibc-attestor/src/adapter/evm.rs:88-100 | without a reply the height is asked for exactly three times, then the error and its counter; a missing block ends the request at once |
| Replies.TimestampReplied | apps/ibc-attestor/src/rpc/attestor.rs:88-104 | an answered timestamp of an existing block goes to the signer as it is, for every u64 |
| Replies.TimestampNotReplied | apps/ibc-attestor/src/adapter/cosmos.rs:197-222 | the errors of a timestamp read and when each is given |
| Replies.CommitmentReplied | apps/ibc-attestor/src/adapter/solana.rs:157-176 | a reply ends the packet's task with what the store gives at the requested height, on Solana at the slot the node knows |
| Replies.CommitmentNotReplied | apps/ibc-attestor/src/adapter/retry.rs:24-52 | without a reply a packet is asked about exactly three times |
| Replies.RequestDecoded | apps/ibc-attestor/src/rpc/attestor.rs:115-117 | a packet request is taken up if and only if its packets decode and its commitment type is 0, 1 or 2, which mean packet, acknowledgement and receipt; else which of the two errors |
| Replies.AnswerRecorded | apps/ibc-attestor/src/rpc/middleware.rs:50-77 | an answer is recorded once, under its method's and its status code's literal labels, with its duration, and passed on |
| Replies.FailureRecorded | apps/ibc-attestor/src/rpc/attestor.rs:233-250 | a packet's failure is counted under not_found, mismatch or unexpected_receipt according to its error, an adapter's under none |
| Replies.SignerRecorded | apps/ibc-attestor/src/signer/mod.rs:72-79 | a signing is counted as ok exactly if it is logged, a failed one as err and answered with the signer's failure |
| Answers.RunOnce | apps/ibc-attestor/src/rpc/attestor.rs:97-106 | the log holds exactly one entry for each request answered with an attestation and none for any other, so a request that fails signs nothing |
| Answers.ResponseMatchesRequest | apps/ibc-attestor/src/rpc/attestor.rs:124-135 | the response carries the request's height, the bytes encoded from its claim and the one logged signature over them, with as many entries as packets, for any batch size |
| Answers.RunContinues | apps/ibc-attestor/src/rpc/attestor.rs:126-135 | the log is append-only and an answer, once given, is final |
| Answers.AttestedBySigning | apps/ibc-attestor/src/attestation.rs:14-46 | a request becomes attested by the signing step and by no other, and only once |
| Runs.RunLater | apps/ibc-attestor/src/adapter/evm.rs:102-121 | along a run finality never recedes and what was finalized stays in place |
| Exactness.SignsTruthIffSettles | apps/ibc-attestor/src/adapter/evm.rs:102-121 | over all runs, whatever is signed is true of the chain if and only if reorganisations stay above the heights the gate accepts |
| Timeouts.TimeoutSafety | apps/ibc-attestor/src/rpc/attestor.rs:308-357 | a state attestation (h, t) and a receipt attestation at h for a packet with timeout at most t: no later chain ever holds that packet's receipt, on all three chains (on Solana with reads at most one slot before h) |
| Timeouts.AckExcludesTimeout | docs/internal-audits/case_table.svg:4 | one packet is never attested both as timed out (on Solana by a read at most one slot before its height) and as acknowledged, unless the counterparty reuses its sequence or an EVM path collides |
| Timeouts.DueReceiptFinal | apps/ibc-attestor/src/adapter/solana.rs:157-176 | a receipt attestation read at most one slot before its height, for a packet due at that height, is final |
| Timeouts.LateReceiptImpossible | docs/internal-audits/solana-attestation.md:3-7 | absence of a receipt is final if every later block is at or past the timeout |
| Timeouts.OnlyLaterTimeouts | docs/internal-audits/solana-attestation.md:3-7 | a receipt that appears after a block belongs to a packet whose timeout lies after the times of the blocks that follow |
| LatestSlot.ReceiptTrueAtHeight | apps/ibc-attestor/src/adapter/solana.rs:152-176 | a receipt attestation is true at every slot up to the one read, so also at the requested one if the read was not behind it |
| LatestSlot.AckPersists | apps/ibc-attestor/src/adapter/solana.rs:149-176 | an attested acknowledgement was written by the slot read and is there, with the same content, ever after |
| LatestSlot.AckTrueAtHeightIffWritten | docs/internal-audits/case_table.svg:4 | an acknowledgement attestation is true at the requested height if and only if the acknowledgement had been written by then |
| LatestSlot.AckMeansReceived | docs/internal-audits/case_table.svg:4 | by the slot read the acknowledged packet had been received, with the counterparty's proof that it was sent |
| LatestSlot.PacketSentAndOpen | apps/ibc-attestor/src/adapter/solana.rs:146-176 | an attested packet had been sent with that content by the slot read, and was neither acknowledged nor timed out then |
| LatestSlot.StoredIffOpen | docs/internal-audits/case_table.svg:4 | a commitment stored at one block is stored at any other, with the same value, exactly when its packet is open there; at an earlier one, exactly when it had been sent |
| LatestSlot.PacketTrueAtHeightIffSent | docs/internal-audits/case_table.svg:4 | a packet attestation is true at the requested height if and only if the packet is open there; when not read behind it, if and only if it had been sent by then |
| CaseTwo.AuditCaseTwo | docs/internal-audits/case_table.svg:4 | a concrete run in which Solana signs a packet commitment for a height whose store does not hold it |
| CaseTwo.AuditCaseTwoAck | docs/internal-audits/case_table.svg:4 | the same for an acknowledgement, written after the height it is attested at |
| Traces.OneRead | apps/ibc-attestor/src/adapter/solana.rs:157-176 | for any chain, any two events between gate and read and any lag, a run signs what the read came to, under the height that was requested |
| Traces.SuchARequest | apps/ibc-attestor/src/lib.rs:50-57 | requests of the kind those runs need exist, for every packet, kind and height |
| StaleReads.ReceiptsTrueIffUpToDate | apps/ibc-attestor/src/adapter/solana.rs:157-176 | over all runs, receipt attestations are true at the slot they name if and only if nodes are never behind |
| StaleReads.TimeoutsSafeIffOneBehind | apps/ibc-attestor/src/adapter/solana.rs:157-176 | over all runs, timing out on a receipt attestation is safe if and only if nodes are at most one slot behind |
| Verifier.LoggedSignatureVerifiesExactly | apps/ibc-attestor/src/attestation.rs:14-46 | a logged signature verifies for a payload exactly when that payload was signed, or two named inputs of SHA-256 collide |
| Verifier.LoggedBytes | apps/ibc-attestor/src/attestation.rs:14-46 | every logged signature is over the double hash of tag 1 and the two words of a state, or tag 2 and the spelled-out bytes of a packet list, and the response carries those bytes, the height, the timestamp of a state only, and that signature |
| Verifier.VerifiedState | apps/ibc-attestor/src/rpc/attestor.rs:94-104 | a verifier that checks (h, t) against a logged signature may conclude that finalized block h has time t |
| Verifier.VerifiedCommitment | apps/ibc-attestor/src/rpc/attestor.rs:122-133 | a verifier that finds the hashed path of a key in a verified packet attestation may conclude what is, or is not, stored under that key |
| Verifier.VerifiedTimeout | apps/ibc-attestor/src/rpc/attestor.rs:308-357 | a consumer that holds the bytes (h, t) and (h, items) with verified signatures, the zero item of a packet's receipt path and a timeout at most t may conclude that no later chain ever holds a receipt of that very packet, whichever packet the request carried |
| Verifier.VerifiedStatesAgree | apps/ibc-attestor/src/rpc/attestor.rs:80-107 | no two verified state attestations of a run contradict each other: times do not fall as heights rise, and one height has one time |
| Verifier.VerifiedItemsAgree | apps/ibc-attestor/src/rpc/attestor.rs:109-136 | on EVM and Cosmos no two verified packet attestations give one key two commitments at one height |
| Determinism.RunDetermined | apps/ibc-attestor/src/rpc/attestor.rs:166-182 | on chains read at a fixed height, an ended task's result is a function of the chain and the packet, or it ran out of attempts |
| Determinism.BatchIsSequential | apps/ibc-attestor/src/rpc/attestor.rs:166-182 | a gathered batch without exhausted reads equals the packets attested one after the other, in every interleaving |
| Determinism.BatchSignedIffTrue | apps/ibc-attestor/src/rpc/attestor.rs:119-135 | on EVM and Cosmos, in every run, a gathered batch without exhausted reads goes on to the signer if and only if every packet has something true to attest at the requested height |
| Work.RunWithinLimits | apps/ibc-attestor/src/adapter/retry.rs:24-46 | no request makes more than 3 RPC attempts for the height, 6 for a state, 3 * (1 + n) for n packets, in any run |
| Retrying.RunFollowsRetryRule | apps/ibc-attestor/src/adapter/retry.rs:24-46 | in every run each read of each request is attempted at most three times, and all attempts but its last went without a reply |
| Completion.NeverStuck | apps/ibc-attestor/src/rpc/attestor.rs:80-136 | in every run a request that is not closed has a next action |
| Completion.RunAdvances | apps/ibc-attestor/src/rpc/attestor.rs:80-136 | in every run a request takes at most 4, 8 or 6 + 3 * n actions, and is closed when it has taken them all (with which answer, Outcomes.RunExplained says) |
| Accounting.RunBalances | apps/ibc-attestor/src/metrics.rs:161-224 | in every run the signings by outcome, RPCs by method and code, durations, rejections, validation failures by kind, retry failures by operation and lag observations number what the requests contributed: an attestation, a failed signing, an answer, a packet's end, a third attempt without a reply, a height learned |
| Conservation.SignsConserved | apps/ibc-attestor/src/signer/mod.rs:72-79 | ok signs = length of the signer's log = recorded ok state RPCs + recorded ok packet RPCs + answered ones not yet recorded (none at quiescence) |
| Conservation.SignerCalledOnce | apps/ibc-attestor/src/attestation.rs:14-46 | in every run the signer is called exactly once for a request answered with an attestation or the signer's failure, and never for any other |
| Conservation.SignerCallsBounded | apps/ibc-attestor/src/signer/mod.rs:72-79 | successful and failed signings together never outnumber the requests |
| Conservation.RejectionsConserved | apps/ibc-attestor/src/rpc/attestor.rs:152-160 | height rejections = RPCs recorded as FailedPrecondition + rejected ones not yet recorded (none at quiescence) |
| Conservation.DurationsConserved | apps/ibc-attestor/src/metrics.rs:161-172 | each method's histogram count is the sum of its counters over all status codes, of which only five are ever counted |
| Conservation.NotFoundIsCounted | apps/ibc-attestor/src/rpc/attestor.rs:232-241 | packet RPCs answered NotFound never outnumber the packets counted as not found |
| Conservation.BatchPartition | apps/ibc-attestor/src/rpc/attestor.rs:172-179 | every packet of a gathered batch was driven to its end and lies in exactly one of the five classes, three of them as counted |
| Conservation.CodesOfErrors | apps/ibc-attestor/src/error.rs:55-74 | which errors map to FailedPrecondition, NotFound, InvalidArgument and Internal, and none to Ok |
| Batch.ScheduleIndependence | apps/ibc-attestor/src/rpc/attestor.rs:172-179 | every polling order that finishes all tasks ends with the same results as running them one after the other |
| Batch.PollOnTrack | apps/ibc-attestor/src/adapter/retry.rs:30-46 | each poll of a task follows the retry rule; a finished one has the result of the rule applied to its script |
| Batch.CollectMeaning | apps/ibc-attestor/src/rpc/attestor.rs:178-179 | collecting gives entry i for packet i, or the error of the lowest-index failing packet |
| Batch.CollectStops | apps/ibc-attestor/src/rpc/attestor.rs:178-179 | nothing after the first error changes the result |
| Batch.CreatePacketsAttestation | apps/ibc-attestor/src/rpc/attestor.rs:166-182 | for any polling order: the sequential result, each failure counter up by the packets that ended in that failure, the retry counter by the exhausted ones, whichever error is returned |
| Batch.CollectInOrder | apps/ibc-attestor/src/rpc/attestor.rs:178-179 | the early-returning loop computes the collected result |
| Batch.PollAt | apps/ibc-attestor/src/rpc/attestor.rs:172-176 | one poll advances one task and moves the counters by how it ended |
| Batch.Partition | apps/ibc-attestor/src/rpc/attestor.rs:195-205 | n ended tasks are its successes, adapter errors, not_found, mismatch and unexpected_receipt |
| Attestor.AttestExact | apps/ibc-attestor/src/rpc/attestor.rs:184-357 | a packet is attested if and only if there is something true to attest about the store, and what is attested is exactly that |
| Attestor.AttestErrors | apps/ibc-attestor/src/rpc/attestor.rs:232-265 | the counterpart for failures: a packet gets an error if and only if nothing is true, and exactly which, with its client, sequence, height or words, on each chain |
| Attestor.AdapterErrorsPass | apps/ibc-attestor/src/rpc/attestor.rs:222-230 | an adapter's error is passed on unchanged for all three kinds |
| Attestor.AttestSound | apps/ibc-attestor/src/rpc/attestor.rs:208-357 | without any assumption on hashes: the entry is for its packet's path, is zero exactly for receipts, and holds unless an EVM path collides |
| Attestor.AdapterRefinement | apps/ibc-attestor/src/adapter/cosmos.rs:164-172 | one store gives the same entry on all three chains or an error on all three; only a present receipt differs in its error, and how |
| Adapters.AdapterReads | apps/ibc-attestor/src/adapter/cosmos.rs:228-267 | each chain's wire form, decoded by its adapter, is the abstract entry; the one exception is a present Cosmos receipt |
| Adapters.PathKeyedLookup | apps/ibc-attestor/src/adapter/evm.rs:160-204 | the lookup by hashed path finds the entry of (kind, client, sequence), or a stored key's path collides with it |
| Adapters.ZeroIsAbsentOnlyOnEvm | apps/ibc-attestor/src/adapter/evm.rs:193-203 | EVM and Solana agree on a stored word if and only if it is not zero |
| Adapters.SolanaAcceptsExactly40 | apps/ibc-attestor/src/adapter/solana.rs:178-205 | account data is accepted if and only if it has exactly 40 bytes, and which error it gets if shorter or longer |
| Adapters.CosmosAcceptsExactly32 | apps/ibc-attestor/src/adapter/cosmos.rs:228-267 | no bytes is absence, 32 a commitment, any other length an error, and so is a present receipt |
| Paths.PathInjective | apps/ibc-attestor/src/rpc/attestor.rs:214-217 | no two (kind, client, sequence) share a path, for arbitrary client bytes |
| Paths.PathLayout | apps/ibc-attestor/src/rpc/attestor.rs:214-217 | the client, then the byte 1, 2 or 3 for packets, receipts or acknowledgements, then eight bytes of the sequence |
| Paths.HashedPathInjective | apps/ibc-attestor/src/adapter/evm.rs:168 | two keys share a hashed path exactly when they are equal or their paths collide |
| World.ReorgStability | apps/ibc-attestor/src/adapter/evm.rs:102-121 | every accepted height is stable for ever if and only if `finality_offset` covers the deepest reorganisation, including saturation at height 0 |
| World.UnstableExample | apps/ibc-attestor/src/adapter/evm.rs:110-120 | with a smaller offset there is a chain on which an accepted block is replaced |
| World.FinalizedIsGreatest | apps/ibc-attestor/src/adapter/evm.rs:83-109 | with the finalized tag and on Solana exactly the heights that no history can change are accepted |
| World.AcceptedHeights | apps/ibc-attestor/src/adapter/cosmos.rs:179-194 | on Cosmos the last height, on EVM with an offset that many below the last, or genesis |
| World.EvolveKeeps | apps/ibc-attestor/src/rpc/attestor.rs:144-160 | one event of the chain leaves every accepted block in place and never lowers the accepted height |
| World.HistoryKeeps | apps/ibc-attestor/src/rpc/attestor.rs:144-160 | the same over any history |
| Ledger.AfterConsistent | docs/internal-audits/case_table.svg:4 | on every chain a packet commitment is stored exactly between its send and its acknowledgement or timeout, with that packet's value, and a receipt exactly when it was received |
| Ledger.AfterGrows | docs/internal-audits/case_table.svg:4 | over any stretch of blocks acknowledgements, receipts and history only grow, and nothing late is received |
| Ledger.OpsTakeEffect | docs/internal-audits/case_table.svg:4 | an operation that is not refused stores or removes what it is for |
| Gate.ValidateHeight | apps/ibc-attestor/src/rpc/attestor.rs:139-164 | refuses exactly the heights above the finalized one; sets the clamped gauge, appends the exact lag where both heights are 63-bit numbers, counts a refusal, and nothing else |
| Gate.LagIsExact | apps/ibc-attestor/src/rpc/attestor.rs:147-150 | the subtraction never saturates, and exactly when the lag is the true difference |
| Gate.LagIsMonotone | apps/ibc-attestor/src/rpc/attestor.rs:147-150 | the lag grows with the finalized and falls with the requested height |
| Gate.LagAndRejection | apps/ibc-attestor/src/rpc/attestor.rs:147-160 | a negative lag means rejection; the converse holds exactly below `i64::MAX` |
| Retry.WithRetryBackoff | apps/ibc-attestor/src/adapter/retry.rs:16-63 | for any script, limit and backoff: ends after exactly the specified attempts with the last one's outcome, sleeps between attempts as proposed but never longer than 2 s, counts a failure exactly on an error that used up the limit |
| Retry.Attempts | apps/ibc-attestor/src/adapter/retry.rs:24-46 | between 1 and the limit; all but the last were retryable; fewer than the limit only if the last was not |
| Retry.AttemptsUnique | apps/ibc-attestor/src/adapter/retry.rs:24-46 | those conditions determine the number |
| Retry.AttemptsAreLeast | apps/ibc-attestor/src/adapter/retry.rs:24-46 | at most the limit, at least one; only a retrieval error leads to another attempt |
| Retry.AtMostThree | apps/ibc-attestor/src/adapter/retry.rs:12-52 | with the limit 3, a failure is counted exactly when two retryable errors are followed by an error |
| Abi.DecodeEncoded | apps/ibc-attestor/src/rpc/attestor.rs:94-95 | decoding an encoding, anywhere inside other bytes, gives the value back, for every type and value |
| Abi.EncodingAligned | apps/ibc-attestor/src/rpc/attestor.rs:94-95 | every encoding is a number of whole words |
| Abi.BytesShape | apps/ibc-attestor/src/lib.rs:50-57 | a byte string is its length, its bytes and zeroes up to a whole word |
| Encodings.EncodeStateShape | apps/ibc-attestor/src/rpc/attestor.rs:94-95 | a state attestation is two 32-byte words |
| Encodings.DecodeEncodeState | apps/ibc-attestor/src/rpc/attestor.rs:94-95 | round trip for every height and timestamp |
| Encodings.EncodeStateInjective | apps/ibc-attestor/src/rpc/attestor.rs:94-95 | equal bytes mean equal height and timestamp |
| Encodings.EncodePacketsShape | apps/ibc-attestor/src/rpc/attestor.rs:122-124 | the offset, the height, the list's offset, its length and the pairs in order |
| Encodings.DecodeEncodePackets | apps/ibc-attestor/src/rpc/attestor.rs:122-124 | round trip for lists of any length an ABI word can count |
| Encodings.EncodePacketsInjective | apps/ibc-attestor/src/rpc/attestor.rs:122-124 | equal bytes mean equal height and equal list, over lists of any length |
| Encodings.DecodeEncodePacket | apps/ibc-attestor/src/rpc/attestor.rs:473-487 | round trip for packets with any payloads |
| Encodings.EncodePacketShape | apps/ibc-attestor/src/rpc/attestor.rs:473-487 | the bytes of a packet: offsets, words, clients and payloads in their order |
| PacketLists.DecodeAllExact | apps/ibc-attestor/src/lib.rs:50-57 | packet i is the decoding of element i, and an error means that some element does not decode |
| PacketLists.DecodeAllEncoded | apps/ibc-attestor/src/lib.rs:50-57 | a request's packets arrive as they were encoded, in order |
| Signing.TaggedSigningInput | apps/ibc-attestor/src/attestation_payload.rs:8-52 | builds 33 bytes: tag 1 for a state and 2 for packets, then the inner hash |
| Signing.TaggedInputInjective | apps/ibc-attestor/src/attestation_payload.rs:44-52 | equal inputs exactly for equal payloads or data colliding under the same tag |
| Signing.SignedBytes | apps/ibc-attestor/src/attestation_payload.rs:44-52 | the bytes each statement is signed over, spelled out |
| Signing.PayloadInjective | apps/ibc-attestor/src/rpc/attestor.rs:94-132 | distinct statements have distinct payloads |
| Signing.SigningInputInjective | apps/ibc-attestor/src/attestation_payload.rs:3-23 | a shared signing input means the same kind, height and content, or a SHA-256 collision |
| Signing.VerifiesExactly | libs/ethereum/keys/src/recover.rs:3-20 | a payload's signature recovers to the signer for that payload alone, never for the other type |
| Signing.RawDataVerifiesExactly | libs/ethereum/keys/src/signature.rs:8-17 | nor for bare data, unless those are the 33 tagged bytes |
| Labels.PascalToSnake | apps/ibc-attestor/src/metrics.rs:271-280 | the pushing loop computes the snake case that the lemmas below are about |
| Labels.PascalInvertsSnake | apps/ibc-attestor/src/metrics.rs:271-280 | it has an inverse on ASCII names that start with a capital |
| Labels.SnakeInjective | apps/ibc-attestor/src/metrics.rs:271-280 | so such names have distinct labels |
| Labels.SnakeLength | apps/ibc-attestor/src/metrics.rs:272-276 | the label is longer by the number of capitals after the first |
| Labels.SnakeHasNoCapitals | apps/ibc-attestor/src/metrics.rs:271-280 | no capital is left |
| Labels.InitialCaseIsLost | apps/ibc-attestor/src/metrics.rs:274 | without the capital at the start, two names share a label |
| Labels.CodeLabelInjective | apps/ibc-attestor/src/metrics.rs:265-269 | all seventeen gRPC status codes are counted under distinct labels |
| Labels.CodeLabelsSpelled | apps/ibc-attestor/src/metrics.rs:265-280 | the labels of the codes the service answers with, letter by letter |
| Metrics.Metrics.Init | apps/ibc-attestor/src/metrics.rs:154-159 | the first call wins; later ones change nothing |
| Metrics.Metrics.RecordRpcRequest | apps/ibc-attestor/src/metrics.rs:161-172 | one request and one duration, each under its own labels, and nothing before initialisation |
| Metrics.Metrics.SetAdapterFinalizedHeight | apps/ibc-attestor/src/metrics.rs:210-217 | sets the gauge, clamped to `i64::MAX` |
| Metrics.Metrics.TrackRpc | apps/ibc-attestor/src/metrics.rs:250-263 | returns the handler's result unchanged with the time it took, and records both under its method and code |
| Metrics.Metrics.Sign | apps/ibc-attestor/src/signer/mod.rs:72-79 | returns the signer's result unchanged and counts its outcome |
| Metrics.Metrics.LastHeight | apps/ibc-attestor/src/adapter/mod.rs:79-89 | returns the adapter's result unchanged and sets the gauge on success |

## Left out

- gRPC transport, reflection, the health server, graceful shutdown, CLI, TOML loading, OpenTelemetry, keystore files and bearer tokens: plumbing without a hard property.
- Remote signer RPCs: the signer is "a signature or an error"; the key behind it is the `Scheme` of `Signing`.
- Internals of SHA-256, Keccak-256, ECDSA, Solana's derived addresses and Prometheus: see the assumptions.
- The packet commitment's own formula: it comes from a library that is not part of this model; a theorem that needs a packet from its commitment says "or two packets share a commitment".
- Retry.WithRetryBackoff: does not model the delays `tokio-retry` proposes, which are a parameter here; only their number and the 2 s cap are proved. The schedule in `README.md:96-101` is not a property of this code alone.
- Retry operation labels: one label for each kind of read, without the chain's own prefix and suffix.
- Histogram buckets: a histogram is the list of what it observed, a duration a number of clock units.
- Abi.DecodeEncoded: states the round trip, not which malformed inputs the library's decoder tolerates; the decoder here refuses `uint64` words out of range and ignores padding bytes.
- Client identifiers are byte strings: UTF-8 validation by the decoder is not modelled.
- Labels.PascalToSnake: works on characters, which for the ASCII names it is given are the bytes of the source; other text is not modelled.
- Error message texts: an error keeps what its message is made from.
- Accounting.RunBalances: has no law for the finalized-height gauge, whose value depends on the order in which concurrent requests set it, and counts lag observations without their values; both are stated for the single gate in Gate.ValidateHeight.
- World.Finalized: heights are unbounded, so a chain longer than 2^64 blocks is not excluded; block times are whole seconds.
- Request cancellation: dropped futures are not modelled.
- The token transfer and relayer documents: they specify contracts and a relayer that are not implemented here.
