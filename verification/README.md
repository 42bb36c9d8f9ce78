# A verified model of Summit's block pipeline

Summit (SahyaNet) drives an execution client with blocks that a BFT library has agreed on. This project
models what lies between the two: how a node stores, looks up, repairs and requests blocks (`Syncer`), how it
commits them height by height (`Finalizer`), how blocks are proposed and verified (`Application`, `Chain`),
their digest and wire form (`Ssz`, `Blocks`), the resolver's keys (`Key`) and the validator registry
(`Registry`).

Code that changes things in place is modelled so: the syncer, the finalizer, its height notifier, the
application, the registry, the encoder, the hasher and the read cursor are classes whose methods follow the
source step by step, and each method is proved to have the effect of a function on plain states. `System` puts
these functions together as one transition system: consensus messages, peers' deliveries, the finalizer's
single steps, the channels between the two actors, and a crash after any step, in every order. `Commits`,
`Wakeups`, `Waiters` and `Views` prove invariants of every transition; `Runs` states what follows for every
state of every run; `Effects` says what each message leaves in the stores and with the resolver, and `Judgements`
what the execution layer's verdicts decide; `Settling` shows that a node without input goes to sleep, and `CatchUp` that with the
blocks it then asks for it commits everything up to the top of its store; `Exchange` relates what one node
answers to what another accepts; `Restarts` follows a process that starts again.

## Assumptions

They are premises of the theorems (`Chain.Sound`, `System.Sensible`, `System.Enabled`, `Blocks.ProofCodec`),
never axioms.

- Consensus: there is one chain of blocks from genesis, each accepted by `handle_verify` against its parent,
  and each finalization certificate formed is for a block of it above genesis. (`Chain.OneChainCarriesAll`
  derives such a chain from the pairwise statement that any two finalized blocks lie on one ancestor chain.)
  Consensus reports only certificates that verify, and a delivered finalization that verifies was formed. That
  each height of the chain has a view, carried by its finalizations, and that views grow with the height, is a
  premise of the two theorems on pruning only.
- Hashing: no two of the byte strings hashed in a run collide, and no computed digest is the genesis hash. Equal
  digests are *not* taken to mean equal blocks: the hasher is fed the payload and the requests without a
  delimiter (types/src/block.rs:57-58). `Blocks.PreimageDoesNotFixSplit` gives two different blocks with one
  digest that both cross the wire, whenever payload and requests together read as a payload;
  `Blocks.RequestReadsAsWithdrawal` shows that one request of 40 bytes is enough, if withdrawals of 44 bytes end
  a payload (a premise of that lemma only); and `Blocks.SameDigestSameBlock` that equal digests mean equal
  blocks exactly when the payloads have one length. All other results are stated up to `Twins`, agreement in digest, parent, height, timestamp, block value and the two
  execution hashes, which `Blocks.PreimageFixesEthHashes` derives.
- Libraries: an archive keeps what is already at an index; pruning removes only entries below the view it is
  given; `next_gap` returns where the next stored stretch begins; the resolver delivers only for keys that were
  fetched, and drops a request once a delivery for it is accepted; the buffer answers a digest with a block of
  that digest; the finalizer's metadata is written atomically; the certificate codec reads back what it writes
  and writes at least one byte. A lookup by digest may return any entry with that key. The wake-up channel holds
  at least one token.
- Crashes: the syncer never syncs its archives, so a crash may drop any of their entries. Only the persisted
  index and what the execution layer was told survive for certain.
- `ExecutionPayloadV3` is represented by its own SSZ bytes: at least 528 of them, the parent hash first, the
  block hash at 472. Which byte strings are payloads is a parameter.
- u64 sums in proposals and their verification wrap, as in a build without overflow checks.

## Where the code and its intent part

- A request for a digest whose block is found among the notarized ones is answered with the certificate in
  front of the block (syncer/src/actor.rs:599-600), while the receiver decodes a block (line 536). The model
  keeps the code. `Exchange.HonestAnswers` proves that an honest answer is accepted unless the key is a digest
  that neither the buffer nor the verified blocks have and the notarized ones do; then the receiver takes the
  first bytes of the certificate for a length, panics if the answer is shorter than that, and rejects it
  otherwise. `Exchange.UnusableAnswer` gives a state, one message after the start, in which this happens.
- The genesis block can be written, but what is read back has a computed digest
  (`Blocks.GenesisDoesNotRoundTrip`).
- After a restart the forkchoice shows genesis until the first commit of the new process
  (application/src/actor.rs:67-71); `Runs.ForkchoiceShown` and `Application.LateProposalVerifies` say exactly
  what a proposer then meets, and `Restarts.FirstRestartFails` is a run, of one commit and one crash, after which
  a proposer woken for its parent's height builds a block that does not verify.
- Reading a block from too few bytes panics instead of failing (types/src/block.rs:188-190).
  `Blocks.PanicsExactly` and `Syncer.CrashedExactly` say for which bytes, for a block, a certified block and a
  delivery under any key; `Exchange.ShortDeliveryCrashes` gives a delivery for a fetched key that panics. In
  `System` such a delivery is a crash.
- A key with a tag above 2 reads from the network but cannot be unpacked (syncer/src/key.rs:61), so a peer that
  asks for it stops the loop; `Syncer.Actor.Produce` panics exactly then.

## Model

| member | source | states |
|---|---|---|
| Runs.HeadsRefineTheChain | application/src/finalizer.rs:59-133 | over every run, with crashes after any step, the heads committed are the finalized chain's execution hashes at 1, 2, 3, ..., none skipped, repeated only by a later life of the process, and the persisted index is the last of them or one less |
| Judgements.CommitsAreJudged | application/src/finalizer.rs:86-114 | in any run every commit goes back to one verdict of its own: the execution layer judged valid the very block whose hash is committed, at the next height, with no other verdict, commit or crash in between |
| Judgements.RefusedIsNotCommitted | application/src/finalizer.rs:88-141 | after a refusal nothing is committed, shown, persisted or indexed until a stored block is judged valid or the process dies |
| Judgements.SleepsOverRefused | application/src/finalizer.rs:137-160 | a finalizer sleeps over a stored next block only if its last verdict refused that very block |
| Judgements.CommitIsWhole | application/src/finalizer.rs:90-134 | from the block in hand to the end of the turn, whatever the syncer handles meanwhile: one head committed and shown, the index persisted and advanced, those who wait for it woken in the order they came, all others kept, one report with the block's digest sent |
| Runs.StoreIsOneChain | syncer/src/actor.rs:318-343 | in every reachable state each stored block stands at its own height of the finalized chain under its own digest, adjacent ones pass verification against each other, and whatever is stored higher is later |
| System.CanonAfterFinalize | syncer/src/actor.rs:302-343 | a finalization whose block is at hand keeps the stores on the chain, and a missing one is fetched by a finalized digest |
| System.CanonAfterRepair | syncer/src/actor.rs:404-455 | both repairs from verified and notarized blocks keep the store on the chain, and only chain digests above genesis are fetched |
| System.CanonAfterFinalized | syncer/src/actor.rs:499-533 | a delivered finalized block keeps finalizations and blocks on the chain |
| System.CanonAfterDigest | syncer/src/actor.rs:534-556 | a block delivered by digest keeps the store on the chain |
| System.CanonSyncAfter | syncer/src/actor.rs:210-618 | every message keeps all four archives and the set of requests canonical |
| System.ParentOfStart | syncer/src/actor.rs:415-437 | the parent sought below a stored stretch is the chain's block one lower, never genesis |
| System.InStepAfter | application/src/finalizer.rs:83-141 | whatever the order of steps, the orchestration queue, the index, the persisted index and what the syncer was told as processed stay in step |
| Runs.FinalizationsMatchBlocks | syncer/src/actor.rs:520-530 | a stored finalization is for the chain's block at its height, and for the block stored beside it |
| Runs.LookupsAgree | syncer/src/actor.rs:229-282 | any two answers for a digest, from any stores and any two moments of a run, have that digest and agree in everything hashed |
| Runs.VerifiedBlockFinalizes | syncer/src/actor.rs:289-343 | in any run, a block stored when it was verified is found when its finalization comes, however many messages later and whatever was pruned in between, if the process lived and the height is not processed yet: the height is stored, the finalizer is woken and nothing is fetched |
| Runs.RequestWindow | syncer/src/actor.rs:390-403 | requested heights lie in the 20 above the last processed one, so there are at most 20; no height outside is looked for by the resolver, and each is still looked for or stored; the orchestration queue never exceeds its 2 places |
| Wakeups.RequestsAfter | syncer/src/actor.rs:440-453 | every transition keeps the request window and the match between requested heights and the resolver |
| Runs.FetchesStayOnChain | syncer/src/actor.rs:436-437 | only digests of the finalized chain above genesis are ever fetched |
| Runs.NoWakeupIsLost | syncer/src/actor.rs:331-332 | a finalizer that waits while the channel is empty has seen the store as it is now, although failed sends are ignored: the next block is absent or was judged invalid |
| Wakeups.NoLostWakeupAfter | application/src/finalizer.rs:143-160 | every interleaving keeps: store unchanged since the last look, or a token in the channel |
| Runs.SleepsOnlyCovered | application/src/finalizer.rs:138-160 | when it sleeps below a gap, the block under the next stored stretch is being fetched by digest, is above genesis, and every height short of the stretch and less than 20 above the next one is requested and, if missing, being fetched |
| Wakeups.CoveredAfterRepair | syncer/src/actor.rs:404-455 | a repair that reports no progress leaves the gap covered: the digest under the stretch and each height of the next 20 short of it are being fetched |
| Settling.RepairFillsHole | syncer/src/actor.rs:417-435 | a repair that reports progress fills exactly the missing height below the next stored stretch |
| Settling.InternalStepDescends | application/src/finalizer.rs:83-141 | each step taken without input lowers a rank made of heights to commit, holes to fill and tokens |
| Settling.InternalRunsAreShort | application/src/finalizer.rs:83-141 | no stretch without input is longer than the rank of its first state |
| Settling.StopsExactlyAsleep | application/src/finalizer.rs:143-160 | the node can do nothing on its own if and only if it waits with an empty channel |
| Settling.Settles | application/src/finalizer.rs:83-160 | from every reachable state there is a stretch without input that ends asleep |
| CatchUp.DeliveryFillsHole | syncer/src/actor.rs:534-556 | an accepted delivery of the digest sought below the next stored stretch fills exactly the missing height below it and wakes the finalizer |
| CatchUp.StuckExactly | application/src/finalizer.rs:138-160 | with the chain's blocks at hand for what it asks, the node has no way on if and only if it sleeps and its store has no gap above the next height |
| CatchUp.CatchUpRunsAreShort | application/src/finalizer.rs:83-160 | however its own steps and such deliveries alternate, the way is no longer than the distance of its first state, with no more deliveries than holes below the top of the store, and the top stays |
| CatchUp.CatchesUp | application/src/finalizer.rs:83-160 | if no payload is refused, every such way that cannot be prolonged ends with every height up to the highest stored one committed, in order and with the chain's heads |
| CatchUp.SomeWayCatchesUp | application/src/finalizer.rs:83-160 | and there is one from every reachable state |
| Runs.WaitersAreServed | application/src/finalizer.rs:116-155 | waiters taken from the mailbox are, with multiplicity, pending or fired; at each height those who came first fire first; none fires early; those fired by a commit find the forkchoice at exactly their height; at the head of the loop every pending height is above the index |
| Waiters.ConservedAfterNotify | application/src/finalizer.rs:181-194 | a notification moves waiters from pending to fired and loses or doubles none |
| Waiters.NotifyInTime | application/src/finalizer.rs:126-129 | a commit wakes only those who wait for the committed height, with the new forkchoice already shared |
| Runs.ForkchoiceShown | application/src/actor.rs:66-71 | between commits the forkchoice is the chain's execution hash at the index, or genesis in a life that has not committed |
| Runs.PruningIsSafe | syncer/src/actor.rs:326-329 | while the process lives and views grow along the chain, the verified and notarized entries in the view of a height stay, and can still be stored, until the height is processed, with or without a finalization of its own; the processed height never falls |
| Views.ViewMarkAfter | syncer/src/actor.rs:395-399 | the last processed view stays that of a finalization of a processed height |
| Runs.MissingNotarizationsSought | syncer/src/actor.rs:375-377 | a notarization recorded as missing is still looked for, has arrived, or is below the pruning floor |
| Runs.GivenUpIsSettled | syncer/src/actor.rs:211-223 | the head of the loop stops looking for nothing but a notarization recorded as missing, and only when the store holds a block finalized in a later view |
| Views.LatestMarkAfter | syncer/src/actor.rs:318-335 | the latest view stays that of a finalization whose block is stored |
| Commits.HeadsAreTheChain | application/src/finalizer.rs:92-114 | a commit log without repeats is the list of the chain's heads up to its top |
| Commits.RecordedAfter | application/src/finalizer.rs:114-126 | every step and crash keeps the persisted index at the last commit, or one behind it with that commit from this step or an earlier life |
| Exchange.HonestAnswers | syncer/src/actor.rs:462-614 | the bytes an honest node produces are accepted for the same key if and only if it is not a digest that only the notarized blocks have; if it is, the receiver panics when the bytes are short of the length read from the certificate, and rejects them otherwise |
| Exchange.HonestAnswersInRuns | syncer/src/actor.rs:559-613 | the same for every state of every run of the answering node |
| Exchange.AnsweredExactly | syncer/src/actor.rs:559-613 | a node answers exactly when it has the pair of the view, both parts at the height, or a block of the digest |
| Exchange.HeightTransfers | syncer/src/actor.rs:499-586 | what one node answers for a finalized height is stored by the node that asked, the same entries if it had none, the same digests in any case |
| Exchange.ViewTransfers | syncer/src/actor.rs:466-573 | what one node answers for a notarized view is stored by the node that asked unless the view is taken or pruned away there |
| Exchange.CertifiedIsNotABlock | syncer/src/actor.rs:598-602 | a certificate with its block is never accepted as that block |
| Exchange.UnusableAnswer | syncer/src/actor.rs:598-602 | one notarization is enough to reach a state that answers a digest with bytes on which the receiver panics or which it rejects, and which of the two |
| Exchange.ShortDeliveryCrashes | syncer/src/actor.rs:534-537 | after one finalization whose block is missing, an empty delivery for the fetched digest panics |
| Syncer.CrashedExactly | syncer/src/actor.rs:462-558 | a delivery panics exactly when the block in it, after the certificate unless the key is a digest, is read from fewer bytes than its prefix announces |
| Syncer.Actor.CancelUseless | syncer/src/actor.rs:211-223 | drops and cancels the recorded requests below the latest view |
| Syncer.Actor.Get | syncer/src/actor.rs:229-283 | answers from buffer, verified, notarized, then finalized blocks, and fetches the notarization only if nothing is found and a view is given |
| Syncer.Actor.StoreVerified | syncer/src/actor.rs:289-301 | stores under the view and the block's digest unless occupied or pruned |
| Effects.FinalizationIsStored | syncer/src/actor.rs:302-324 | in any run the block is at hand exactly when the buffer, the verified or the notarized blocks have the digest; then the finalization and the block are stored at the chain's height of the digest, these very ones if the height was free |
| Effects.FinalizationElsewhere | syncer/src/actor.rs:318-343 | besides, no other height is touched, one token is sent and the latest view moves; without the block, its digest is fetched and no store changes |
| Effects.PrunedExactly | syncer/src/actor.rs:326-329 | exactly the entries below the archives' cuts are gone, and every view within the activity timeout of the last processed one is spared |
| Effects.CutsAllowed | syncer/src/actor.rs:327-327 | a cut is allowed exactly when it is 0 or at least the activity timeout below the last processed view |
| Effects.StoredStays | syncer/src/actor.rs:318-324 | what is stored by height, finalization or block, stays unchanged while the process lives |
| Effects.VerifiedIsStored | syncer/src/actor.rs:289-301 | a verified block is stored under its own digest in its view unless that is taken or pruned away |
| Effects.NotarizationIsStored | syncer/src/actor.rs:344-379 | a notarization is stored with its block exactly when the buffer or the verified blocks have it; otherwise its view is recorded and fetched |
| Effects.MissIsFetched | syncer/src/actor.rs:229-283 | a lookup answers exactly when the buffer or one of the three stores has the digest; on a miss the notarization of the given view is fetched, and nothing else ever |
| Effects.DeliveredNotarization | syncer/src/actor.rs:466-498 | an accepted notarization is stored with the block it carries, whoever asked for it, unless its view is taken or pruned away; from then on a lookup of that digest succeeds |
| Effects.DeliveredFinalization | syncer/src/actor.rs:499-533 | an accepted finalization and its block are stored at the height asked for, these very ones if it was free, and the finalizer is woken |
| Effects.DeliveredBlock | syncer/src/actor.rs:534-556 | an accepted block is stored at its height of the chain, this very one if it was free, and the finalizer is woken |
| Effects.RejectedChangesNothing | syncer/src/actor.rs:462-558 | bytes that do not prove what was asked for change nothing |
| Syncer.AcceptedExactly | syncer/src/actor.rs:462-541 | a delivery is accepted exactly when its bytes are a valid certificate of the view followed by its block, a valid certificate followed by its block at the height, or the block of the digest |
| Effects.ProcessedIsSettled | syncer/src/actor.rs:390-403 | the processed height is no longer looked for, by height or by the chain's digest there; exactly the higher heights stay in the window; the view of the finalization stored there is taken over |
| Effects.RepairsExactly | syncer/src/actor.rs:404-435 | a repair makes progress exactly when the parent of the next stored stretch was verified or notarized, and then stores it one below the stretch and asks for nothing |
| Effects.GapIsRequested | syncer/src/actor.rs:436-454 | otherwise it asks for that parent by digest and for each height short of the stretch, no more than 20, and for nothing else |
| Effects.StaleIsGivenUp | syncer/src/actor.rs:211-223 | after the head of the loop no recorded view is below the latest one or still looked for if it was, and each of the others is still looked for, stored or pruned |
| Effects.ChannelFits | syncer/src/actor.rs:332-332 | the wake-up channel never holds more tokens than its capacity |
| Syncer.Actor.Finalize | syncer/src/actor.rs:302-343 | whole new state, when the block is found and when it is not; the finalization and the block are stored at the height of the block, this finalization if the height was free |
| Syncer.Actor.Notarize | syncer/src/actor.rs:344-379 | stores the notarized block, or records and fetches the missing view |
| Runs.AnswerIsNextBlock | syncer/src/actor.rs:385-389 | in any run the finalizer is given a block exactly when its next height is stored; it is the chain's block of that height, and its parent hash is the execution head at the index and, once the life has committed, the forkchoice shown |
| Syncer.Actor.Processed | syncer/src/actor.rs:390-403 | cancels both requests, takes over the view, and drains the request window |
| Syncer.Actor.Repair | syncer/src/actor.rs:404-455 | next stored stretch, one repair from verified or notarized, or requests by digest and for every height short of the stretch and less than 20 above the next |
| Syncer.Actor.RequestRange | syncer/src/actor.rs:441-453 | fetches each height of the range that was not requested yet |
| Syncer.Actor.Deliver | syncer/src/actor.rs:462-558 | verdict and whole new state for the three kinds of key; what is accepted is stored unless pruned away, and no longer looked for |
| Syncer.Actor.Produce | syncer/src/actor.rs:559-613 | panics exactly on a tag above 2; otherwise the bytes sent are those of the first store that has the block, in the source's order |
| Finalizer.Finalizer.constructor | application/src/finalizer.rs:41-75 | a new process starts from the persisted index, 0 if there is none |
| Finalizer.Finalizer.CommitBlock | application/src/finalizer.rs:91-134 | commit, publish, persist, advance, notify and report, in this order, with one head sent |
| Finalizer.Finalizer.OnMail | application/src/finalizer.rs:146-155 | fires at once if the height is indexed, else registers |
| Finalizer.HeightNotifier.Register | application/src/finalizer.rs:177-179 | appends the sender at its height |
| Finalizer.HeightNotifier.NotifyUpTo | application/src/finalizer.rs:181-194 | fires everyone up to the height, lowest and earliest first, and keeps exactly the rest |
| Finalizer.SplitAt | application/src/finalizer.rs:181-194 | pending waiters up to any height are those fired followed by those kept |
| Chain.OneChainCarriesAll | application/src/actor.rs:277-291 | pairwise comparable ancestries of finalized blocks lie on one chain |
| Chain.DigestFixesChain | application/src/actor.rs:277-291 | two accepted chains from genesis with one tip digest have one length and agree in all hashed bytes, links and execution hashes at every height |
| Chain.TimesGrow | application/src/actor.rs:287-289 | along a chain every block is later than every block below it |
| Chain.PlaceOnChain | application/src/actor.rs:281-286 | a block with the digest of a chain block has that block's height and parent |
| Chain.ChainDigestsDiffer | application/src/actor.rs:281-286 | no two heights of the chain share a digest |
| Chain.CollisionFreeSuffices | types/src/block.rs:53-60 | absence of SHA-256 collisions among hashed bytes gives the assumption on equal digests |
| Application.ProposalVerifies | application/src/actor.rs:245-290 | a proposal passes verification if and only if the forkchoice it was built on is the parent's execution hash and the parent's time is below the u64 limit, for every clock reading |
| Application.ProposalExactly | application/src/actor.rs:245-273 | a proposal carries exactly what the execution layer built, one block above the parent, at the earliest time not before the clock and after the parent, if u64 has one |
| Application.WokenProposalVerifies | application/src/actor.rs:236-273 | a proposer woken by the commit of its parent, on that forkchoice, proposes a block that verifies |
| Application.FirstProposalVerifies | application/src/actor.rs:228-273 | so does one that builds on genesis on a node that has indexed nothing |
| Application.LateProposalVerifies | application/src/finalizer.rs:149-152 | one answered at once proposes a valid block exactly when the chain shows its parent's hash at the forkchoice |
| Restarts.RestartedProposalFails | application/src/actor.rs:66-71 | from every reachable state a crash can lead to a wait at the persisted index where a proposal on that height verifies exactly when its execution hash is that of genesis |
| Restarts.FirstRestartFails | application/src/actor.rs:66-71 | one finalization, one commit and one crash lead to a waiter for height 1 answered at once with the forkchoice at genesis, whose proposal does not verify if the execution hashes of heights 0 and 1 differ |
| Application.Actor.HandleProposal | application/src/actor.rs:222-274 | the block built, sealed, and when it verifies |
| Application.Actor.Propose | application/src/actor.rs:124-155 | keeps the built block and answers its digest; a failure changes nothing |
| Application.Actor.Broadcast | application/src/actor.rs:156-172 | sends the sealed block of the last digest answered to a proposal, whatever digest is asked for, and nothing if none was answered; the warning is given exactly when the two digests differ |
| Application.Actor.Verify | application/src/actor.rs:174-217 | the vote is given, and the block stored, exactly when it names the parent by digest and by execution hash, stands one higher and is later, the parent being genesis if named by its hash; that is, when it extends whatever accepted chain from genesis ends there |
| Ssz.ListExact | types/src/block.rs:102-118 | list decoding accepts exactly the serializations whose offsets fit, and returns the list |
| Ssz.AppendList | types/src/block.rs:117-117 | the encoder leaves exactly the serialization of the list |
| Blocks.SszAppend | types/src/block.rs:97-121 | the encoder leaves exactly the serialization of the block |
| Blocks.Write | types/src/block.rs:175-182 | length prefix, cut to 32 bits, then the serialization |
| Blocks.WriteCertified | types/src/block.rs:224-229 | certificate, then block |
| Blocks.ReadFrom | types/src/block.rs:184-194 | reading moves the cursor past what the block took |
| Blocks.ComputeDigest | types/src/block.rs:45-71 | the digest is that of the fields in the source's order |
| Blocks.SszExact | types/src/block.rs:134-167 | container decoding accepts exactly the serializations of sealed blocks whose offsets fit |
| Blocks.StreamExact | types/src/block.rs:175-194 | a stream reads as a block and a rest if and only if it is the written block followed by that rest and the block is sealed, well formed and below 2^32 bytes |
| Blocks.RoundTrip | types/src/block.rs:175-194 | a written block is read back in front of any suffix exactly when it is sendable |
| Blocks.GenesisDoesNotRoundTrip | types/src/block.rs:73-83 | genesis is read back with another digest |
| Blocks.CertifiedRoundTrip | types/src/block.rs:224-290 | a certified block survives exactly when it is sendable and the certificate is for it |
| Blocks.CertifiedReadSound | types/src/block.rs:238-246 | whatever is read certified is sealed and matches its certificate |
| Blocks.CarriesExactly | types/src/block.rs:238-290 | decoding a pair accepts exactly a certificate followed, to the end, by the written form of the sendable block it is for |
| Blocks.ExactSize | types/src/block.rs:123-131 | the announced size is the size written although the SSZ length is counted 4 short |
| Blocks.PreimageFixes | types/src/block.rs:53-60 | one preimage exactly when parent, height, timestamp, value and payload followed by requests agree |
| Blocks.PreimageFixesEthHashes | types/src/block.rs:32-43 | the digest fixes the execution hashes |
| Blocks.PreimageDoesNotFixSplit | types/src/block.rs:57-58 | if payload and requests together read as a payload, the block without requests is a different one that is sealed, crosses the wire and has the same preimage and digest |
| Blocks.RequestReadsAsWithdrawal | types/src/block.rs:57-58 | so it is for every sendable block with one request of 40 bytes, which reads as one withdrawal more |
| Blocks.PreimageAndLengthFixBlock | types/src/block.rs:53-60 | among blocks whose offsets fit, one preimage and one digest mean one block exactly when the payloads have one length |
| Blocks.SameDigestSameBlock | types/src/block.rs:45-71 | without hash collisions, sendable blocks with one digest are equal exactly when their payloads have one length |
| Blocks.PanicsExactly | types/src/block.rs:184-194 | reading a block or a certified block panics exactly when the block is read from fewer bytes than its prefix announces |
| Key.New | syncer/src/key.rs:25-42 | the array holds tag, value and zeros |
| Key.UnpackPack | syncer/src/key.rs:44-63 | unpacking inverts packing on all values |
| Key.PackInjective | syncer/src/key.rs:25-42 | different values have different keys |
| Key.PackUnpack | syncer/src/key.rs:74-81 | exactly which byte strings with a known tag are keys that packing writes |
| Key.OrderOfKeys | syncer/src/key.rs:20-22 | byte order is tag order, then numeric order, or byte order of digests |
| Key.CancelOnlyOne | syncer/src/actor.rs:215-222 | cancelling one request by its key removes no other |
| Registry.RunRefinesSet | syncer/src/registry.rs:63-102 | after any operations from a list without repeats, list and index are inverse, members are those of a plain set, and versions grow by the successes |
| Registry.SnapshotsPersist | syncer/src/registry.rs:109-133 | versions are exactly 1 to the latest and no snapshot ever changes |
| Registry.CollectedIndex | syncer/src/registry.rs:36-46 | a new registry's index is inverse to its list exactly when nothing repeats |
| Registry.RemovedKeepsIndex | syncer/src/registry.rs:91-97 | swap-remove keeps the index, also for the last key, and removes one member |
| Registry.OrderAfterChange | syncer/src/registry.rs:63-102 | a change succeeds exactly for a stranger added or a member removed; a newcomer comes last, a leaver is replaced by the last member, and nobody else moves |
| Registry.EveryMemberLeads | syncer/src/registry.rs:145-156 | in any stretch of views as long as the list each member leads |
| Registry.NoMemberLeadsTwice | syncer/src/registry.rs:145-156 | and none twice |
| Registry.Registry.constructor | syncer/src/registry.rs:36-61 | version 1 from the given list |
| Registry.Registry.AddParticipant | syncer/src/registry.rs:63-79 | a stranger is appended in a new version, a member is an error that changes nothing |
| Registry.Registry.RemoveParticipant | syncer/src/registry.rs:81-102 | a member is swap-removed in a new version, a stranger is an error that changes nothing |
| Registry.Registry.IsParticipant | syncer/src/registry.rs:171-176 | the position of the candidate in the latest list |
| Registry.Registry.LeaderOf | syncer/src/registry.rs:145-156 | the member at view modulo size, none for an empty list |
| Registry.Registry.Peers | syncer/src/registry.rs:109-133 | the list of the latest version, in its order and without repeats |

## Left out

- Simplex consensus, BLS signatures, distributed key generation and SHA-256: library code, present only through the assumptions above.
- The engine API client and its HTTP transport: the execution layer is a log of heads, a verdict on payloads, and a builder that builds on the head it is given.
- Threshold leader election by seed (syncer/src/registry.rs:192-203), polynomial, share and identity of the registry: no state beyond what is modelled.
- Registry.Registry.AddParticipant: does not model the cut of positions to 32 bits, which needs 2^32 validators.
- Syncer.Actor.Repair: does not model the overflow of `next + 20` in u64, which needs a height within 20 of 2^64.
- Syncer.Actor.Get: does not model the later answer of the buffer to a subscriber, which is the broadcast library's.
- System.CanonSyncAfter: takes each message as one step; between its storage operations no other actor reads the stores, and a crash between them is covered by crashes that drop entries.
- The broadcast message of the syncer and the genesis message of the application only pass a value on.
- Cancelled proposals and verifications, one-shot channels, task spawning, logging, metrics, command line, key and genesis files.
- Eventual delivery by peers, rate limits and timeouts: what is requested is proved, not that the network answers.
