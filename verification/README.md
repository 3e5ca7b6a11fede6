# Verified model of the Citrate node agent

The node agent bids on compute jobs, runs inference, and asks a signing surface to broadcast its
writes; it holds no key and can be killed at any moment. This project models its hard core in Dafny
and proves what it relies on:

- **Crash-safe commit/reveal.** `CommitReveal` is a transition system: volatile memory, a disk that
  outlives crashes, a relay that may land any emitted request at any later time or never, and a chain
  that evaluates what lands. Chain reads, I/O results and inference outputs are arbitrary, and a crash
  may fall between any two micro-steps, inside `save_artifacts` and inside the minting of a nonce
  included. Everything ever emitted for a job carries one commitment, and every result ever emitted is
  a proof the verifier accepts against it. `NonceStore` and `Execution` are the imperative code; each
  step is proved to be a path of the transition system and to do exactly what its inputs call for, so
  the guarantee holds wherever the process is killed. The emitted requests are calldata, and the chain
  reads them by the Solidity ABI. `Recovery` says exactly when a restarted job goes on and when it has
  stopped for good.
- **The signing queue.** `SigningQueue` gives the queue's meaning as a value and its laws over whole
  histories (invariant, eviction, conservation); `AgentState` is the mutable record that implements
  it; `Relay` shows that, seen from one job, bids are a single cell, and that the heartbeat cannot
  re-arm one because their calldata differ. `OneJob` puts queue and protocol together: whatever the
  daemon does for its job, each write is queued at most once, and what the signer is shown under a job
  write's name is a request the executor emitted.
- **Codecs.** `AbiSpec` is a reference encoder and decoder written from the formal specification of
  the Solidity contract ABI; `Abi` and `Calldata` are the agent's hand-written encoders, proved equal
  to it, hence decodable and injective down to the hex text the queue compares. `ContractCalls` reads
  every call from its Solidity signature alone, so what each contract receives is fixed argument by
  argument. `Marketplace` and `ModelRegistry` decode hostile return data exactly. `Base32` is an exact
  partial inverse (RFC 4648, sections 6 and 3.5), from which `Models` gets its content-identifier
  grammars and the verified cache.
- **Planners and arithmetic.** `Lifecycle`/`JobRun` and `Pinning`/`PinRun` compose the pure planners
  with small contract models and give termination measures, with writes in flight, lost or overtaken by
  interference and the driver planning on stale reads. `Bidder` and `Schedule` bound what a bid
  promises; `Alerts` and `Earnings` do so over histories.

One module per file. Machine integers are subset types of `int`, with truncation, saturation and
overflow written out; `Vec` is bounded by Rust's `isize::MAX`. Hash functions are parameters. The
outcome of every I/O call is a parameter (an oracle or a fault), so each proof covers every outcome.

## Findings

Places where the code decides otherwise than its documentation says, or where a promise holds only
under a condition. The model follows the code; the condition is proved.

- `secs_until_window_close` ignores seconds. Its documentation (`crates/config/src/lib.rs:75-79`) says
  it may under-report by up to 59 s and is never optimistic; it over-reports by the seconds of the
  current minute already gone (`Schedule.ReportOptimisticUnlessWholeMinute`, concrete second in
  `Schedule.ReportOvershoots`). The bidder's factor of two absorbs this unless the estimate is shorter
  than those seconds (`Bidder.OverrunOnlyWhenShort`, instance in `Bidder.ShortJobCanOverrun`).
- The queue's "never double-broadcast" (`crates/supervision/src/state.rs:302-306`) holds while the entry
  is retained: a one-shot write is queued exactly when no retained entry has its calldata
  (`SigningQueue.OneShotMintsIff`). A caller can tell beforehand: a history that names at most 256
  different writes evicts nothing and queues each of them at most once
  (`SigningQueue.FewWritesAreQueuedOnce`), and 257 are enough to queue one of them twice
  (`SigningQueue.QueuedTwice`). The daemon drives one job and names seven writes, so for it the promise
  holds (`OneJob.EachWriteQueuedOnce`); a caller that drove 257 jobs through one signer would break it
  (`Relay.StartIsQueuedTwice`).
- `claimRewards()` has constant calldata and goes through the one-shot discipline. A second sweep while
  the first claim is retained emits nothing but raises the in-flight guard. If that claim is retained as
  submitted, no claim reaches the signer again while the balance stays above zero
  (`Earnings.SweepQueuesIff`, `Earnings.SecondSweepStalls`); a pending one is still before the signer.
  Four ordinary events lead to the stall from an empty queue, for every threshold
  (`Earnings.StallIsReached`).
- A process killed between creating and filling the nonce file, or one whose write of it fails, leaves a
  file no later step accepts; the job stops for good, before any commitment was emitted
  (`Recovery.TornReachable`, `CommitReveal.TornNonceStopsTheJob`).
- `save_artifacts` has no size limit, `load_artifacts` accepts at most 64 MiB. A restarted job whose file
  is above the cap stops for good, even with its commitment already on chain. With the shipped llama
  adapter this takes an operator who raises `CITRATE_MAX_RESPONSE_BYTES`, 16 MiB by default
  (`crates/chainio/src/outbound.rs:103-114`), above 64 MiB (`Recovery.OversizedReachable`,
  `Recovery.StoppedForGood`; for the files alone `NonceStore.LoadAfterSave`).
- These are the only two ways to stop: between steps, and so after any restart, the job can still commit
  or reveal if and only if the nonce file is absent or 32 bytes and the artifacts file is absent, held in
  memory, or within the cap (`Recovery.ContinuesIff`, `Recovery.RestartContinuesIff`, and
  `Recovery.RestartRevealsIff` for a commitment on chain).
- `map_job` truncates the job id to 64 bits: the bid names the job that was read if and only if its id
  fits (`Bidder.BidNamesItsJob`; job 2^64 + 7 is bid on as job 7 in `Bidder.WrongJobIsNamed`).
- The lifecycle documentation gives the commitment as a hash of input, output and nonce
  (`crates/lifecycle/src/lib.rs:12`); the code hashes output and nonce (`crates/executor/src/proof.rs:71`).
- The input is said to be needed by the inference step and nothing else
  (`crates/node-agent/src/execution.rs:501-503`), yet it is asked for before the plan is made: a step waits
  for it exactly while the job executes without artifacts (`Recovery.WaitsForInputIff`), so a job that is
  not settled under the Commitment tier waits for an input where the plan is to abort
  (`Recovery.AbortWaitsForInput`).
- Only `submitResult` is gated by the execution deadline; `RunInference` and `submitCommitment` are
  planned past it (`Lifecycle.OnlyTheResultIsGated`).

## Model

| member | source | states |
|---|---|---|
| CommitReveal.CommitRevealSafety | crates/node-agent/src/execution.rs:405-591 | in every state of every run, all emitted commitments are equal, every emitted result is accepted by the on-chain predicate against each of them and against the stored one, no result is emitted before a commitment is on chain, and the chain never rejected anything |
| CommitReveal.CommittedArtifactsAreDurable | crates/node-agent/src/execution.rs:575-590 | once a commitment has been emitted the final artifacts file holds the artifact it belongs to, under the stored nonce, and through any number of crashes neither file ever changes |
| CommitReveal.MemoryAgreesWithDisk | crates/node-agent/src/execution.rs:463-499 | at a step boundary artifacts in memory are, field by field, those the file rebuilds; in every state, mid-save included, the final path is a complete file built under the stored nonce |
| CommitReveal.StepKeeps | crates/node-agent/src/execution.rs:405-591 | each micro-step, crash and landing keeps the invariant that links memory, disk, emitted requests and chain, and undoes no complete nonce, artifacts file, request or commitment |
| CommitReveal.TornNonceStopsTheJob | crates/node-agent/src/nonce.rs:65-94 | once minting was cut short nothing is emitted and no file changes any more, and no commitment had been emitted |
| Recovery.ContinuesIff | crates/node-agent/src/execution.rs:405-591 | in every run, between steps, some path of the system still emits a commitment or a reveal if and only if the nonce file is absent or 32 bytes and the artifacts are in memory, not yet made, or at most 64 MiB on disk |
| Recovery.RestartContinuesIff | crates/node-agent/src/execution.rs:421-499 | after a restart that is: nonce file absent or 32 bytes, and artifacts file absent or at most 64 MiB |
| Recovery.RestartRevealsIff | crates/node-agent/src/execution.rs:463-499 | with the commitment on chain a restarted process can reveal exactly its artifacts file if and only if that file is at most 64 MiB |
| Recovery.StoppedForGood | crates/node-agent/src/nonce.rs:65-173 | from a stopped state nothing is ever emitted and no file changes, through any restarts, landings and chain reads |
| Recovery.TornReachable | crates/node-agent/src/nonce.rs:85-94 | a run that ends stopped on a torn nonce, by a crash and likewise by a failed write |
| Recovery.OversizedReachable | crates/node-agent/src/nonce.rs:108-148 | a run that ends stopped after a restart with the commitment on chain and an artifacts file above the cap, for an adapter that delivers an output that large |
| Recovery.FileIsUsed | crates/node-agent/src/execution.rs:463-499 | from any resting state with a loadable file, a timely read leads to the commitment or, once that is on chain, to the reveal of exactly that file |
| Recovery.HealthyStepFollowsPlan | crates/node-agent/src/execution.rs:405-591 | when what it asks for is answered (the input only while artifacts are due; size, weights, inference and save only if inference is planned; the signer only if a request is), a step carries out exactly the planned action on the artifacts of the file if the state continues, and fails otherwise |
| Recovery.SoundStepContinues | crates/node-agent/src/execution.rs:405-591 | a step that leaves no torn nonce and no unsynced rename, whatever else fails, leaves a job that continues continuing and a stopped one stopped |
| Recovery.HealthyTicksContinue | crates/node-agent/src/execution.rs:670-683 | through any number of such ticks, with failing reads, missing inputs, refused requests, landings and restarts, the job continues and every tick that is answered carries out its plan |
| Recovery.RestartedStepReveals | crates/node-agent/src/execution.rs:463-499 | a restarted process with the commitment on chain and a loadable file answers a timely read by emitting the result, whatever the input source, the gateway and the adapter answer |
| Recovery.HeldArtifactsSpeak | crates/node-agent/src/execution.rs:501-546 | a job whose artifacts are held or loadable commits, or reveals once committed, on every timely read the signer answers, whatever the input source, the gateway and the adapter answer |
| Recovery.WaitsForInputIff | crates/node-agent/src/execution.rs:501-546 | a step waits for the input if and only if the job executes without artifacts and none was delivered |
| Recovery.AbortWaitsForInput | crates/node-agent/src/execution.rs:501-546 | an unprovable job without input waits for it where the plan is to abort |
| CommitReveal.EmittedMeans | crates/node-agent/src/execution.rs:575-590 | a commitment read out of emitted calldata is the first word of the artifacts file, a proof read out of it is the whole file |
| CommitReveal.FourCalls | crates/node-agent/src/execution.rs:405-591 | everything emitted over a run, through any crashes, is one of four calls: start, complete, one commitment, one result |
| CommitReveal.EmittedRequestsAreTheJobs | crates/lifecycle/src/lib.rs:323-340 | over every run each emitted request goes to the marketplace, on its chain, without value; a contract reads in it the call its name promises, for this job; a completion has no expiry |
| CommitReveal.CommitmentCallDecodes | crates/lifecycle/src/lib.rs:248-255 | a contract decoding the commitment call by the ABI reads exactly the commitment, and never a proof |
| CommitReveal.ResultCallDecodes | crates/lifecycle/src/lib.rs:266-270 | a contract decoding the result call by the ABI reads exactly the proof, and never a commitment |
| CommitReveal.SoundFileVerifies | crates/executor/src/proof.rs:109-121 | a file that rebuilds to itself is accepted by the verifier against its own first word |
| Execution.JobExecutor.DoStep | crates/node-agent/src/execution.rs:405-591 | a step is a path of the transition system; its outcome, the progress it keeps and the nonce and artifacts files it leaves are exactly what the memory and disk it starts with and the answers it gets determine; the one request it emits is the one planned on the progress it reached; inference only runs on the input the chain binds and leaves its artifacts on disk; a commitment on chain without a stored nonce is never answered with a fresh one |
| Execution.JobExecutor.ResolveNonce | crates/node-agent/src/execution.rs:421-461 | the stored nonce when it is readable and whole, a fresh one exactly when none was stored, nothing is committed and minting goes through, none otherwise; every intermediate disk is on the path |
| Execution.JobExecutor.ResolveArtifacts | crates/node-agent/src/execution.rs:463-499 | artifacts are reloaded exactly when the files hold them and can be read; with a commitment on chain and none to reload, or a file that fails to load, the step stops |
| Execution.JobExecutor.ResolveInput | crates/node-agent/src/execution.rs:501-546 | when inference needs an input, one is accepted if and only if it was delivered and the chain's input hash binds it |
| Execution.JobExecutor.DriveJob | crates/node-agent/src/execution.rs:143-257 | exactly the planned action is taken: the planned request when the signer accepts, inference when the input fits, the weights are provisioned and the model answers, with artifacts built under the job's nonce |
| Execution.JobExecutor.Persist | crates/node-agent/src/execution.rs:575-590 | saved exactly when no call of the save fails; then the file holds the proof, otherwise the artifacts are gone from memory and the file is the old one, or the new one if only the directory sync failed |
| Execution.KilledAnywhereIsSafe | crates/node-agent/src/execution.rs:405-591 | killing the process at any point of a step leaves a safe state, and the restart continues a run |
| Execution.RunContinues | crates/node-agent/src/execution.rs:670-683 | a run followed by one more step is a run, so the guarantees cover any number of ticks |
| NonceStore.Store.Load | crates/node-agent/src/nonce.rs:65-79 | absent gives none, 32 bytes give the nonce, anything else is an error and never a fresh start |
| NonceStore.Store.Mint | crates/node-agent/src/nonce.rs:85-94 | succeeds exactly when no nonce is stored and the write completes; the file then holds the minted nonce, after a failure as much of it as was written; an existing nonce is never touched; every disk in between is a micro-step apart, other jobs' files unchanged |
| NonceStore.Store.SaveArtifacts | crates/node-agent/src/nonce.rs:108-122 | whichever call fails, the directory moves only through the micro-steps of a replace-by-rename; success reaches the last phase; other jobs' files unchanged |
| NonceStore.Store.LoadArtifactsCapped | crates/node-agent/src/nonce.rs:132-169 | returns artifacts exactly when the files hold a proof within the cap that its own bytes rebuild under the stored nonce, none exactly when there is no file, and an error otherwise |
| NonceStore.LoadAfterSave | crates/node-agent/src/nonce.rs:108-173 | saving artifacts built under the stored nonce and loading gives them, and only them, back if and only if the proof is at most 64 MiB |
| NonceStore.SaveNeverTears | crates/node-agent/src/nonce.rs:106-122 | at every micro-step of a save the final path holds what it held before or the complete new proof |
| NonceStore.MintKeepsNonce | crates/node-agent/src/nonce.rs:81-94 | no micro-step of minting changes a complete nonce or another file |
| Proof.AcceptedIffBuilt | crates/executor/src/proof.rs:71-121 | the verifier accepts a proof against a commitment exactly when some output and nonce build that pair |
| Proof.ParseBuilt | crates/node-agent/src/nonce.rs:158-164 | parsing a built proof and rebuilding gives the same artifacts |
| Proof.ProofLayout | crates/executor/src/proof.rs:71-98 | the commitment hashes output then nonce, the output hash the output, and the three can be sliced back out of a proof |
| Lifecycle.PlanNext | crates/lifecycle/src/lib.rs:221-305 | the planner with hand-built calldata is the planner whose requests are ABI encodings of the named write |
| Lifecycle.PlanIff | crates/lifecycle/src/lib.rs:221-340 | the exact condition for each write, inference, each wait with its block, done and idle |
| Lifecycle.OnlyProvableJobs | crates/lifecycle/src/lib.rs:306-321 | work and writes are planned only for this provider's jobs settled under the Commitment tier, by the verifier's record or, unread, by tier and a price of at most 10 SALT |
| Lifecycle.OnlyTheResultIsGated | crates/lifecycle/src/lib.rs:243-271 | while executing, inference is planned exactly for want of artifacts and the commitment exactly for want of one on chain, at every block; only with both does a passed deadline abort, and then exactly |
| JobRun.JobReachesPayoutOrAborts | crates/lifecycle/src/lib.rs:8-30 | with writes landing in any later block, lost, re-emitted or planned on stale reads, and with timeouts and disputes at any point, every run ends within 902 steps plus 1000 per unit of bad luck, the landed writes are always a prefix of start, commit, result, complete, and a run that does not proceed by itself is paid out or aborted |
| JobRun.StepProgresses | crates/lifecycle/src/lib.rs:221-305 | each tick, landing, loss and interference keeps the order of the landed writes and lowers the measure |
| JobRun.EmittedWritesStayAcceptable | crates/lifecycle/src/lib.rs:248-271 | every emitted write is accepted in every later block, a result exactly up to the deadline |
| JobRun.ExpiryMatchesGuard | crates/lifecycle/src/lib.rs:323-340 | every request is for the marketplace without value; a result expires exactly with the last block in which it can be accepted, a completion never |
| JobRun.RequestIsItsName | crates/lifecycle/src/lib.rs:237-304 | what a contract reads in a planned request is the call its name promises, with this job and these artifacts |
| JobRun.NeverStuck | crates/lifecycle/src/lib.rs:221-305 | until the driver is done or has aborted, a fresh tick or the landing of the planned write is possible |
| JobRun.AbortHasCause | crates/lifecycle/src/lib.rs:195-217 | a run aborts only for an unprovable tier, a passed deadline, a timeout or a dispute, open or lost |
| JobRun.ResolvedDisputePaysOut | crates/lifecycle/src/lib.rs:288-301 | after a dispute is resolved for the provider the payout is planned again at once and accepted in every block |
| SigningQueue.ApplyKeepsInv | crates/supervision/src/state.rs:307-485 | every operation keeps ids increasing and never reused, keyless calldata distinct, (intent, key) pairs distinct, and a transaction hash exactly on submitted entries |
| SigningQueue.RunKeepsInv | crates/supervision/src/state.rs:307-485 | so does every history |
| SigningQueue.EvictsOldestSubmitted | crates/supervision/src/state.rs:404-417 | eviction drops exactly the oldest min(overflow, submitted) submitted entries |
| SigningQueue.EvictionKeepsPending | crates/supervision/src/state.rs:404-417 | every pending entry stays, in order, and nothing else goes |
| SigningQueue.EvictionBounds | crates/supervision/src/state.rs:120-126 | after an eviction the queue has at most 256 entries or only pending ones |
| SigningQueue.Conservation | crates/supervision/src/state.rs:307-461 | over any history the keyless entries minted for a calldata are those present, at most one, plus those evicted |
| SigningQueue.SecondMintNeedsEviction | crates/supervision/src/state.rs:302-337 | a write is queued again only after an eviction of it |
| SigningQueue.OneShotMintsIff | crates/supervision/src/state.rs:307-337 | a one-shot write is queued exactly when no retained entry has its calldata, and otherwise changes nothing |
| SigningQueue.EnqueueOffers | crates/supervision/src/state.rs:307-461 | after an enqueue the write is on the queue: a new one pending exactly as asked, a recurring one always pending, a superseding one that is pending with the latest values |
| SigningQueue.ObserveRecords | crates/supervision/src/state.rs:475-485 | a reported broadcast is recorded on its entry and nowhere else |
| SigningQueue.EntryOrigin | crates/supervision/src/state.rs:307-461 | an entry's payload was there before, is the operation's own, or is that of an entry with the same key brought up to date |
| SigningQueue.QueuedTwice | crates/supervision/src/state.rs:400-417 | for any write and any 256 distinct others: queued, broadcast, observed, followed by the others and emitted again, it is minted a second time |
| SigningQueue.FewWritesAreQueuedOnce | crates/supervision/src/state.rs:302-461 | a history that names at most 256 different writes, in any order and however often, evicts nothing and queues each at most once |
| OneJob.EachWriteQueuedOnce | crates/node-agent/src/main.rs:316-395 | over every run of the job and every history of the daemon's queue at most seven writes are named, none is evicted and each is queued at most once |
| OneJob.SignerSeesTheJob | crates/node-agent/src/relay.rs:31-45 | an entry with the name of a job write shows a request the executor emitted, field by field, at the marketplace without value |
| SigningQueue.SubmittedStays | crates/supervision/src/state.rs:394-417 | while retained, a submitted entry stays submitted with the payload that was broadcast, unless a recurring write shares its calldata |
| SigningQueue.GoneForGood | crates/supervision/src/state.rs:475-485 | an id that left the queue never comes back |
| SigningQueue.RearmsBounded | crates/supervision/src/state.rs:419-461 | over any history an entry is re-armed at most once per observed broadcast |
| AgentState.State.EvictIfOverCap | crates/supervision/src/state.rs:404-417 | the one-pass retain is the eviction function |
| AgentState.State.EnqueueOneShot | crates/supervision/src/state.rs:307-337 | the queue becomes the one-shot operation's result; the id is the new or the found entry's |
| AgentState.State.EnqueueSuperseding | crates/supervision/src/state.rs:354-398 | the queue becomes the superseding operation's result: a pending entry is edited in place, a submitted one left alone |
| AgentState.State.EnqueueRecurring | crates/supervision/src/state.rs:431-461 | the queue becomes the recurring operation's result: a submitted entry is re-armed under its id |
| AgentState.State.MarkRequestObserved | crates/supervision/src/state.rs:475-485 | the queue becomes the observe operation's result; true exactly for a known id; only an observed heartbeat moves the heartbeat time |
| AgentState.State.RecordProviderObservation | crates/supervision/src/state.rs:245-273 | the detector steps as specified, strictly more than 5% or any stake decrease raises and nothing lowers, and the provider stats are those observed |
| Alerts.LatchedIffDanger | crates/supervision/src/state.rs:245-283 | an alert is latched if and only if some adjacent pair of observations, the later after the last clear, lowered the stake or lowered the reputation by strictly more than 5% |
| Alerts.AlertShowsLatestDanger | crates/supervision/src/state.rs:251-272 | a latched alert shows, in order, the earlier and later value of the last uncleared adjacent pair that fell |
| Alerts.ErosionBound | crates/supervision/src/state.rs:252-258 | n polls without a reputation alert imply rep_n * 100^n >= rep_0 * 95^n |
| Relay.BidRefinesCell | crates/node-agent/src/relay.rs:125-148 | under any queue operation a job's bid moves as one cell: latest values under an unchanged id while pending, frozen once submitted; only a submitted bid can be evicted |
| Relay.PendingBidIsLatest | crates/node-agent/src/relay.rs:125-148 | after any history an unsigned bid carries the price, latency and expiry of its job's latest placement |
| Relay.OneBidPerJob | crates/supervision/src/state.rs:339-353 | after any history there is at most one bid entry per job |
| Relay.EntriesShowRequests | crates/node-agent/src/relay.rs:31-148 | after any history every entry shows one of the requests made so far: target, calldata, value, chain, context and expiry, for a bid the job, price and latency the contract reads |
| Relay.Place | crates/node-agent/src/relay.rs:125-148 | placing a bid is the superseding operation keyed by the job |
| Relay.RequestSignature | crates/node-agent/src/relay.rs:31-45 | a signer request is the one-shot operation, for any calldata |
| Relay.SendHeartbeat | crates/node-agent/src/relay.rs:73-91 | a heartbeat is the recurring operation, for whatever calldata the caller passes |
| Relay.StartIsQueuedTwice | crates/node-agent/src/relay.rs:31-45 | a caller that drives 257 jobs through one signer gets the broadcast start of the first queued again |
| Earnings.EarningsPoller.Tick | crates/node-agent/src/execution.rs:641-668 | guard and queue move as the sweep specification says, for every balance reading and whether or not the signer accepts |
| Earnings.SweepQueuesIff | crates/earnings/src/lib.rs:40-58 | a tick queues a claim exactly when none is in flight, the balance is positive and at the threshold, and no retained entry has the claim's calldata |
| Earnings.SweepShowsClaim | crates/earnings/src/lib.rs:48-57 | what a sweep puts before the signer is read as a claim at the accounting contract, without value or expiry |
| Earnings.GuardIff | crates/node-agent/src/execution.rs:652-667 | the guard goes down with a zero balance, up with an accepted request and otherwise stays |
| Earnings.SecondSweepIsSwallowed | crates/node-agent/src/relay.rs:31-45 | with a previous claim retained, pending or submitted, a sweep emits nothing and still raises the guard |
| Earnings.SecondSweepStalls | crates/node-agent/src/execution.rs:652-667 | from then on, while the balance stays above zero, no claim is put before the signer, evictions included |
| Earnings.StallIsReached | crates/node-agent/src/execution.rs:652-667 | for every threshold, sweep, observe, zero balance and sweep again lead from an empty queue to the stall, which then lasts |
| Abi.WordFromU128 | crates/chainio/src/abi.rs:55-60 | the word that spells the number |
| Abi.WordFromAddress | crates/chainio/src/abi.rs:62-67 | the word whose low 20 bytes are the address and whose value is the address |
| Abi.EncodeCall | crates/chainio/src/abi.rs:69-77 | selector followed by the words in order |
| Abi.EncodeBytesTail | crates/chainio/src/abi.rs:79-93 | exactly the tail the ABI specifies for `bytes`, of any length |
| Abi.Decoder.Word | crates/chainio/src/abi.rs:107-119 | the next word, or a shortage that leaves the cursor |
| Abi.Decoder.U128 | crates/chainio/src/abi.rs:122-130 | the word's value if it fits 128 bits, an overflow otherwise |
| Abi.Decoder.Bool | crates/chainio/src/abi.rs:138-148 | 0 and 1 only |
| Abi.Decoder.Address | crates/chainio/src/abi.rs:151-159 | the low 20 bytes of a word below 2^160 only |
| Abi.Decoder.U8Enum | crates/chainio/src/abi.rs:162-169 | words below 256 only |
| Abi.LeadingZeros | crates/chainio/src/abi.rs:122-130 | leading zero bytes are equivalent to a bound on the word's value, which the remaining bytes then spell |
| Abi.NarrowingIsExact | crates/chainio/src/abi.rs:122-169 | a word is narrowed to a number, boolean, byte or address exactly when it spells that value |
| Abi.ReadBackU128 | crates/chainio/src/abi.rs:55-60 | a number written as a word reads back |
| Abi.ReadBackAddress | crates/chainio/src/abi.rs:62-67 | an address written as a word reads back |
| Abi.HexEncode | crates/chainio/src/abi.rs:194-202 | `0x` and two lowercase digits a byte |
| Abi.HexDecode | crates/chainio/src/abi.rs:172-191 | accepts exactly the strings that spell some bytes in any mixture of cases, and returns those bytes |
| Abi.HexInjective | crates/chainio/src/abi.rs:194-202 | equal hex means equal bytes |
| Abi.HexSpellsItself | crates/chainio/src/abi.rs:172-202 | decoding encoded hex returns the bytes |
| Calldata.CalldataDecodes | crates/chainio/src/marketplace.rs:230-301 | a contract that decodes any of the fifteen writes by the ABI receives exactly the words and byte strings put in |
| ContractCalls.BidReads | crates/chainio/src/marketplace.rs:230-240 | `bidOnJob(uint256,uint256,uint256)` reads job, price, latency, in this order |
| ContractCalls.JobCallsRead | crates/chainio/src/marketplace.rs:242-263 | start, completion and assignment are each read by their own signature as the job |
| ContractCalls.CommitmentReads | crates/chainio/src/marketplace.rs:252-258 | `submitCommitment(uint256,bytes32)` reads job and commitment |
| ContractCalls.ResultReads | crates/chainio/src/marketplace.rs:265-288 | `submitResult(uint256,bytes,bytes)` reads job, output hash and proof, for all byte strings |
| ContractCalls.ProviderReads | crates/chainio/src/marketplace.rs:293-301 | `registerProvider(bytes32[])` reads the models |
| ContractCalls.SealReads | crates/chainio/src/pinning.rs:123-156 | `sealCommit` reads its eight arguments, each in its place |
| ContractCalls.PoStReads | crates/chainio/src/pinning.rs:160-186 | `submitPoSt` reads its six arguments, each in its place |
| ContractCalls.PinCallsRead | crates/chainio/src/pinning.rs:158-198 | challenge, claim and return-bond are each read by their own signature as content id and sector |
| ContractCalls.BareCallsRead | crates/chainio/src/selectors.rs:107-147 | the three calls without arguments are their pinned selectors |
| ContractCalls.ReadsOnlyItsOwn | crates/chainio/src/selectors.rs:107-147 | no signature reads another write |
| Calldata.CalldataInjective | crates/chainio/src/selectors.rs:107-147 | equal calldata means the same write with the same arguments |
| Calldata.HexCalldataInjective | crates/supervision/src/state.rs:302-320 | so does equal queued hex text, which is what deduplication compares |
| Calldata.CalldataFits | crates/chainio/src/abi.rs:85-93 | no argument a `Vec` can hold pushes an offset beyond 128 bits |
| Calldata.EncodeJobCall | crates/chainio/src/marketplace.rs:242-263 | the one-argument builders produce the ABI encoding of their write |
| Calldata.EncodeSubmitCommitment | crates/chainio/src/marketplace.rs:252-258 | equals the ABI encoding |
| Calldata.EncodeBidOnJob | crates/chainio/src/marketplace.rs:230-240 | equals the ABI encoding |
| Calldata.EncodeSubmitResult | crates/chainio/src/marketplace.rs:272-288 | equals the ABI encoding with two dynamic tails, for all byte strings |
| Calldata.EncodeRegisterProvider | crates/chainio/src/marketplace.rs:293-301 | equals the ABI encoding of one `bytes32[]`, for all lists |
| Calldata.EncodeSealCommit | crates/chainio/src/pinning.rs:129-156 | equals the ABI encoding: seven static words, one offset, one tail |
| Calldata.EncodeSubmitPoSt | crates/chainio/src/pinning.rs:165-186 | equals the ABI encoding: five static words, one offset, one tail |
| Calldata.EncodePinCall | crates/chainio/src/pinning.rs:158-198 | challenge, claim and return-bond equal their ABI encodings |
| Calldata.EncodeNoArgs | crates/chainio/src/pinning.rs:119-122 | the argument-free writes equal their ABI encodings |
| Marketplace.DecodeInputHash | crates/chainio/src/marketplace.rs:177-193 | for every byte sequence and every pair of offset words, some hash exactly when a length word 32 followed by it sits at the sum of the offsets |
| Marketplace.DecodeJob | crates/chainio/src/marketplace.rs:133-170 | the cursor reads the tuple that the positional specification finds, with the first malformed word as the error |
| Marketplace.JobAtOffsets | crates/chainio/src/marketplace.rs:133-170 | each field of a decoded job stands at its byte offset in the return data, states and tiers by their numbers |
| Marketplace.AddressesAtOffsets | crates/chainio/src/marketplace.rs:133-170 | so do its two addresses, with nothing in front |
| Marketplace.JobRoundTrip | crates/chainio/src/marketplace.rs:111-170 | the canonical return encoding of any job decodes to it, with its input hash exactly when that is 32 bytes long |
| ModelRegistry.WordAt | crates/chainio/src/model_registry.rs:38-47 | the indexed word exactly when it is inside the data, for every 64-bit index |
| ModelRegistry.ReadString | crates/chainio/src/model_registry.rs:84-99 | a string exactly when a count and that many bytes are stored at the word-aligned offset |
| ModelRegistry.DecodeGetModel | crates/chainio/src/model_registry.rs:61-106 | a model exactly when the data holds it, whatever the offset and length words say |
| ModelRegistry.ModelRoundTrip | crates/chainio/src/model_registry.rs:56-106 | the canonical return encoding of any model, with any strings around it, holds that model |
| Base32.Decode | crates/executor/src/models.rs:150-175 | decodes to bytes if and only if the string is their canonical encoding, and to nothing if it is nobody's |
| Base32.EncodingSpells | crates/executor/src/models.rs:150-175 | the symbols of an encoding spell, in base 32, the number of the bytes shifted by the padding |
| Base32.AccumulateByte | crates/executor/src/models.rs:163-169 | pushing a byte keeps 5 * symbols = 8 * bytes + bits and value = bytes * 2^bits + accumulator, and never truncates |
| Base32.CleanEndIsEncoding | crates/executor/src/models.rs:171-174 | fewer than five zero bits left over means the input is the canonical encoding of the output |
| Base32.EncodingEndsClean | crates/executor/src/models.rs:171-174 | a canonical encoding always ends that way, with its own bytes |
| Base32.EncodeInjective | crates/executor/src/models.rs:150-175 | different bytes have different encodings |
| Base32.Alphabet | crates/executor/src/models.rs:157-161 | the alphabet is a-z, 2-7 |
| Models.ValidateCid | crates/executor/src/models.rs:190-205 | accepts exactly the executor grammar: CIDv0 in base58btc, or `b` and the base32 of a version-1 frame |
| Models.GateCid | crates/node-agent/src/execution.rs:278-317 | the pre-provision gate accepts exactly the executor grammar with length 46 to 256 |
| Models.EmbeddedSha256 | crates/executor/src/models.rs:207-223 | finds a digest exactly when the string is the one CID of it |
| Models.SelfVerifyingCids | crates/executor/src/models.rs:207-223 | digests and self-verifying CIDs are in bijection, and every such CID passes both grammars |
| Models.CidPrefix | crates/executor/src/models.rs:207-223 | every self-verifying CID starts with bafkrei |
| Models.Base58Alphabet | crates/executor/src/models.rs:192-196 | base58btc is the alphanumerics without 0, O, I and l |
| Models.Cache.Provision | crates/executor/src/models.rs:245-336 | succeeds exactly when a cached or fetched copy verifies against a digest that did not come from the transport, and returns that copy, whatever failed writes left in the cache |
| Pinning.PlanPinNext | crates/pinning/src/lib.rs:212-303 | the planner with hand-built calldata is the planner whose requests are ABI encodings of the named write |
| Pinning.PlanPinIff | crates/pinning/src/lib.rs:212-303 | the exact condition for each action and hold: an answer before anything else, a claim before a new challenge |
| Pinning.PinDaemon.TickPin | crates/pinning/src/runloop.rs:209-304 | outcome and request are exactly those the plan and the answers of chain reads, replica store, prover and signer determine; a failed read is an error without a request, a seal that reverts for funding is a funding hold |
| Pinning.RequestsCarryTheSeal | crates/pinning/src/lib.rs:325-386 | every request goes to the incentives contract on its chain, and what that reads is this pin and, argument by argument, what sealer and prover produced |
| Pinning.ProofsAreInTime | crates/pinning/src/runloop.rs:276-301 | whatever a tick requests, calldata a contract reads as a proof answers the open challenge's nonce, before its deadline, which is the request's expiry, from stored bytes |
| Pinning.BondsAreBacked | crates/pinning/src/runloop.rs:254-275 | a request that carries value or reads as a seal posts exactly the bond for a registered, unsealed pin, behind stored bytes, below quorum, in a slot that is funded or whose seed is covered |
| Pinning.SlotFundingBackoff.After | crates/pinning/src/runloop.rs:325-336 | delay and state follow the pacing step |
| Pinning.BackoffDelays | crates/pinning/src/runloop.rs:306-337 | the n-th consecutive funding hold (from 0) waits min(base * 2^n, max) when base <= max, for every outcome sequence; any other outcome waits base |
| Pinning.StreakState | crates/pinning/src/runloop.rs:306-337 | the state after any history depends only on the length of the current streak of holds |
| PinRun.PinReachesPayout | crates/pinning/src/lib.rs:212-303 | from any start every run ends within 3 * rounds + 3 writes; one that can go no further has claimed rounds * per_round and holds no bond |
| PinRun.TickProgresses | crates/pinning/src/lib.rs:212-303 | each landed write keeps the state sound and lowers the measure |
| PinRun.RestMeansDone | crates/pinning/src/lib.rs:212-303 | the planner rests only when everything is earned and returned |
| PinRun.NeverStuck | crates/pinning/src/lib.rs:212-303 | otherwise the next write can always land in time |
| PinRun.AnsweredTickTakesTheStep | crates/pinning/src/runloop.rs:242-304 | when prover and signer answer, a tick requests exactly the write the run takes, and nothing exactly when the planner rests or holds |
| PinRun.RemainingBounded | crates/pinning/src/lib.rs:212-303 | the measure of any sound state is between 0 and 3 * rounds + 3 |
| PinRun.NonceIndexesItself | crates/pinning/src/runloop.rs:340-352 | a nonce below the modulus indexes the circuit unchanged, within range |
| Schedule.ReportMatchesScan | crates/config/src/lib.rs:80-107 | at every second of an open window the closed form is the length of a second-by-second scan of the weekly clock plus the seconds of the minute already gone |
| Schedule.ReportOptimisticUnlessWholeMinute | crates/config/src/lib.rs:70-107 | the report equals the true remaining time if and only if the second is a whole minute, and is otherwise too high by unix mod 60 |
| Schedule.ReportOvershoots | crates/config/src/lib.rs:75-79 | at 05:59:59 one second is left and sixty are reported |
| Schedule.ReportAtTheExtremes | crates/config/src/lib.rs:70-85 | a closed window reports zero, the schedule without windows the largest value |
| Schedule.ScanUnique | crates/config/src/lib.rs:58-68 | the scan has one answer |
| Schedule.OpenNights | crates/node-agent/src/clock.rs:24-44 | the night window is open exactly before 06:00 and from 22:00, for every unix time |
| Schedule.OpenWeekends | crates/node-agent/src/clock.rs:24-44 | the weekend window is open exactly on days 2 and 3 after an epoch Thursday |
| Bidder.SaturationHarmless | crates/bidder/src/lib.rs:212-298 | saturating 128-bit pricing returns the same bid or the same skip as unbounded integers |
| Bidder.BidIsProfitable | crates/bidder/src/lib.rs:273-297 | a bid has 0 < cost <= price < max and price = min(115 * cost / 100, 90 * max / 100) over the integers |
| Bidder.BidIff | crates/bidder/src/lib.rs:212-298 | a bid is made exactly when switched on, in the window, under the Commitment tier below 10 SALT, below 80% load, with twice the estimate before deadline and window close, on a fresh oracle, at a positive cost within 90% of the maximum |
| Bidder.SkipNamesFirstFailure | crates/bidder/src/lib.rs:200-211 | a skip names the first of these that fails, in the documented order |
| Bidder.BidFitsTheChainJob | crates/node-agent/src/bridge.rs:41-60 | a bid on a job read from the chain means that job's tier and a price below its maximum |
| Bidder.MapIsExact | crates/node-agent/src/bridge.rs:41-60 | while id, blocks and seconds fit 64 bits the bidder sees the chain's job as it is, with no time left past the deadline |
| Bidder.BidLeavesTime | crates/node-agent/src/bridge.rs:41-60 | a bid leaves (deadline - block) * secs_per_block >= 2 * estimate, through truncation and saturation |
| Bidder.BidNamesItsJob | crates/node-agent/src/bridge.rs:53-59 | the bid names the job that was read if and only if its id fits 64 bits |
| Bidder.WrongJobIsNamed | crates/node-agent/src/bridge.rs:53-59 | job 2^64 + 7 is bid on under the id of job 7 |
| Bidder.BidStaysInWindow | crates/bidder/src/lib.rs:253-268 | the window is open at every second of [unix, unix + 2 * estimate - unix mod 60) |
| Bidder.EndsInsideIff | crates/bidder/src/lib.rs:253-268 | a job started in an open window ends inside it exactly when its estimate is at most the report less the seconds already gone |
| Bidder.OverrunOnlyWhenShort | crates/bidder/src/lib.rs:253-268 | a bid overruns its window only with an estimate below the seconds of the minute already gone |
| Bidder.ShortJobCanOverrun | crates/bidder/src/lib.rs:253-268 | a 20-second job is bid on at 05:59:45 and ends after 06:00 |

## Left out

Assumptions:

- A crash is a crash of the process: what was written to a file and renamed survives it. Losing a rename
  that was not yet synced to a power failure is not modelled, nor is losing the disk, nor the path without
  a nonce store.
- The Solidity contracts are not part of this model. The chain in `CommitReveal`, the marketplace in
  `JobRun` and the incentives contract in `PinRun` are small models written from the transitions the
  lifecycle and pinning documentation describes. The bound in `JobRun` counts idle and stale ticks, lost
  requests and resolved disputes against a budget the run starts with, of any size.
- Chain reads may be stale but report a commitment only once one is stored.
- Keccak-256 and SHA-256 are arbitrary functions; injectivity is nowhere assumed.

Not modelled:

- SigningQueue.Apply: the 64-bit request id counter is unbounded, and the deduplication key is the job
  number rather than its decimal text.
- Execution.JobExecutor.DriveJob: gate and provisioning of the weights are one answer of the oracle; both
  are modelled on their own in `Models`. The in-flight counter, the last error and the profiler are not kept.
- Bidder.Evaluate: the f64 moving average that supplies the estimates is an input.
- Relay.RequestSignature: the `context` text shown to the operator is an argument.
- The alert is the pair of deltas, not the sentence rendered from it.
- Transaction fees and how long a landing takes.
- Derivation of seal inputs, the prover sidecar, the llama adapter and the IPFS gateway client.
- Decoding of pins, slots, providers and balances: straight-line uses of the cursor modelled in `Abi`.
- The HTTP surface, bearer tokens, TLS and URL checks, file permissions and symbolic links.
- Heartbeat timing, pausing, the daemon loop, JSON settings, the address book and display strings.
- The block at which a bid expires and the mapping of capacities: single-branch functions.
