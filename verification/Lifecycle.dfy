/** The planner: from a freshly read job and the artifacts in hand to the next write. */
module Lifecycle {
  import opened Prelude
  import opened Calldata
  import opened Marketplace
  import opened Proof

  /** `ComputeMarketplace.DISPUTE_WINDOW`, in blocks. */
  const DISPUTE_WINDOW: u128 := 100

  const ONE_SALT: u128 := 1_000_000_000_000_000_000

  /** A Commitment-tier request strictly above this price is settled under ZKProof. */
  const COMMITMENT_THRESHOLD: u128 := 10 * ONE_SALT

  datatype ChainGates = ChainGates(
    effectiveTier: Option<Tier>,
    commitmentBlock: u128,
    resultVerifiedAt: u128,
    disputeResolvedForProvider: bool)

  datatype WriteIntent =
    | IntentStart | IntentCommit | IntentResult | IntentComplete
    | IntentClaimRewards | IntentBid | IntentHeartbeat

  datatype SignatureRequest = SignatureRequest(
    intent: WriteIntent,
    to: Address,
    calldata: Bytes,
    value: u128,
    chainId: u64,
    expiresBlock: u128)

  datatype WaitReason =
    | DisputeWindow(readyAtBlock: u128)
    | AwaitingVerification
    | RevealAfterCommitBlock(commitBlock: u128)

  datatype AbortReason =
    | NotAssignedProvider | ExecutionDeadlinePassed | JobExpired | JobTimedOut
    | JobFailedOnChain | JobDisputed | UnsupportedTier

  datatype Action =
    | Sign(request: SignatureRequest)
    | RunInference
    | Idle
    | Done
    | Abort(why: AbortReason)
    | Wait(until: WaitReason)

  datatype PlanInput = PlanInput(
    job: Job,
    me: Address,
    currentBlock: u128,
    marketplace: Address,
    chainId: u64,
    committed: bool,
    artifacts: Option<Artifacts>,
    gates: ChainGates)

  /** The tier the job is settled under. */
  function EffectiveTier(i: PlanInput): Tier {
    if i.gates.effectiveTier.Some? then i.gates.effectiveTier.value
    else if i.job.tier == Commitment && i.job.maxPrice > COMMITMENT_THRESHOLD then ZKProof
    else i.job.tier
  }

  /** The unsigned request for `w`. */
  ghost function Request(intent: WriteIntent, w: Write, i: PlanInput): Action {
    Sign(SignatureRequest(intent, i.marketplace, CalldataOf(w), 0, i.chainId,
                          if intent == IntentComplete then 0 else i.job.executionDeadline))
  }

  /** `plan` */
  ghost function Plan(i: PlanInput): Action {
    var job := i.job;
    if (job.state == Assigned || job.state == Executing || job.state == Verifying)
       && EffectiveTier(i) != Commitment
    then Abort(UnsupportedTier)
    else match job.state
      case Posted => Idle
      case Bidding => Idle
      case Assigned =>
        if i.me != job.assignedProvider then Abort(NotAssignedProvider)
        else Request(IntentStart, StartExecution(job.id), i)
      case Executing =>
        if i.me != job.assignedProvider then Abort(NotAssignedProvider)
        else if i.artifacts.None? then RunInference
        else
          var art := i.artifacts.value;
          if !i.committed then Request(IntentCommit, SubmitCommitment(job.id, art.commitment), i)
          else if i.currentBlock > job.executionDeadline then Abort(ExecutionDeadlinePassed)
          else if i.gates.commitmentBlock != 0 && i.currentBlock <= i.gates.commitmentBlock
          then Wait(RevealAfterCommitBlock(i.gates.commitmentBlock))
          else Request(IntentResult, SubmitResult(job.id, art.outputHash, art.proof), i)
      case Verifying =>
        if i.me != job.assignedProvider then Abort(NotAssignedProvider)
        else
          var verifiedAt := i.gates.resultVerifiedAt;
          var ready := SatAdd(verifiedAt, DISPUTE_WINDOW);
          if !i.gates.disputeResolvedForProvider && verifiedAt == 0 then Wait(AwaitingVerification)
          else if !i.gates.disputeResolvedForProvider && i.currentBlock < ready then Wait(DisputeWindow(ready))
          else Request(IntentComplete, CompleteJob(job.id), i)
      case Completed => Done
      case Expired => Abort(JobExpired)
      case Timeout => Abort(JobTimedOut)
      case Failed => Abort(JobFailedOnChain)
      case Disputed => Abort(JobDisputed)
  }

  /** Only the result is gated by the deadline. While the job is executing under this tier, inference is
      planned for want of artifacts and the commitment for want of a commitment at every block; with both
      in hand the plan gives up exactly past the deadline. */
  lemma OnlyTheResultIsGated(i: PlanInput)
    requires i.job.state == Executing && i.me == i.job.assignedProvider && EffectiveTier(i) == Commitment
    ensures Plan(i) == RunInference <==> i.artifacts.None?
    ensures (Plan(i).Sign? && Plan(i).request.intent == IntentCommit) <==> (i.artifacts.Some? && !i.committed)
    ensures Plan(i) == Abort(ExecutionDeadlinePassed) <==>
              i.artifacts.Some? && i.committed && i.currentBlock > i.job.executionDeadline
  {
  }

  ghost predicate Signs(i: PlanInput, intent: WriteIntent) {
    Plan(i).Sign? && Plan(i).request.intent == intent
  }

  /** When each thing is planned. Nothing is, in the three working states, for a job of another provider or
      one that is not settled under the Commitment tier. */
  lemma PlanIff(i: PlanInput)
    ensures var job := i.job;
            var provable := if i.gates.effectiveTier.Some? then i.gates.effectiveTier.value == Commitment
                            else job.tier == Commitment && job.maxPrice <= 10_000_000_000_000_000_000;
            var ours := provable && i.me == job.assignedProvider;
            var held := ours && job.state == Executing && i.artifacts.Some?;
            var revealing := held && i.committed && i.currentBlock <= job.executionDeadline;
            var opens := Min(i.gates.resultVerifiedAt + 100, U128_MAX);
            && (Signs(i, IntentStart) <==> ours && job.state == Assigned)
            && (Plan(i) == RunInference <==> ours && job.state == Executing && i.artifacts.None?)
            && (Signs(i, IntentCommit) <==> held && !i.committed)
            && (Signs(i, IntentResult) <==>
                  revealing && (i.gates.commitmentBlock == 0 || i.currentBlock > i.gates.commitmentBlock))
            && (forall b :: Plan(i) == Wait(RevealAfterCommitBlock(b)) <==>
                  revealing && b == i.gates.commitmentBlock && b != 0 && i.currentBlock <= b)
            && (Signs(i, IntentComplete) <==>
                  ours && job.state == Verifying
                  && (i.gates.disputeResolvedForProvider
                      || (i.gates.resultVerifiedAt != 0 && i.currentBlock >= opens)))
            && (Plan(i) == Wait(AwaitingVerification) <==>
                  ours && job.state == Verifying && !i.gates.disputeResolvedForProvider
                  && i.gates.resultVerifiedAt == 0)
            && (forall b :: Plan(i) == Wait(DisputeWindow(b)) <==>
                  ours && job.state == Verifying && !i.gates.disputeResolvedForProvider
                  && i.gates.resultVerifiedAt != 0 && b == opens && i.currentBlock < b)
            && (Plan(i) == Done <==> job.state == Completed)
            && (Plan(i) == Idle <==> job.state == Posted || job.state == Bidding)
  {
  }

  /** Work and writes are only ever planned for this provider's own jobs, and only for jobs settled under
      the Commitment tier: the verifier's record says so or, unread, the request asks for it at a price of
      at most 10 SALT. */
  lemma OnlyProvableJobs(i: PlanInput)
    requires Plan(i).Sign? || Plan(i) == RunInference
    ensures i.me == i.job.assignedProvider
    ensures i.gates.effectiveTier.Some? ==> i.gates.effectiveTier.value == Commitment
    ensures i.gates.effectiveTier.None? ==> i.job.tier == Commitment && i.job.maxPrice <= 10_000_000_000_000_000_000
    ensures i.job.state == Assigned || i.job.state == Executing || i.job.state == Verifying
  {
  }

  /** `plan` as the code runs it, with the calldata built by the hand-written encoders. */
  method PlanNext(i: PlanInput) returns (a: Action)
    ensures a == Plan(i)
  {
    var job := i.job;
    var tier := EffectiveTier(i);
    if (job.state == Assigned || job.state == Executing || job.state == Verifying) && tier != Commitment {
      return Abort(UnsupportedTier);
    }
    match job.state {
      case Posted => return Idle;
      case Bidding => return Idle;
      case Assigned =>
        if i.me != job.assignedProvider { return Abort(NotAssignedProvider); }
        var calldata := EncodeJobCall(StartExecution(job.id));
        return Sign(SignatureRequest(IntentStart, i.marketplace, calldata, 0, i.chainId, job.executionDeadline));
      case Executing =>
        if i.me != job.assignedProvider { return Abort(NotAssignedProvider); }
        if i.artifacts.None? { return RunInference; }
        var art := i.artifacts.value;
        if !i.committed {
          var calldata := EncodeSubmitCommitment(job.id, art.commitment);
          return Sign(SignatureRequest(IntentCommit, i.marketplace, calldata, 0, i.chainId, job.executionDeadline));
        }
        if i.currentBlock > job.executionDeadline { return Abort(ExecutionDeadlinePassed); }
        var commitBlock := i.gates.commitmentBlock;
        if commitBlock != 0 && i.currentBlock <= commitBlock { return Wait(RevealAfterCommitBlock(commitBlock)); }
        var calldata := EncodeSubmitResult(job.id, art.outputHash, art.proof);
        return Sign(SignatureRequest(IntentResult, i.marketplace, calldata, 0, i.chainId, job.executionDeadline));
      case Verifying =>
        if i.me != job.assignedProvider { return Abort(NotAssignedProvider); }
        if !i.gates.disputeResolvedForProvider {
          var verifiedAt := i.gates.resultVerifiedAt;
          if verifiedAt == 0 { return Wait(AwaitingVerification); }
          var ready := SatAdd(verifiedAt, DISPUTE_WINDOW);
          if i.currentBlock < ready { return Wait(DisputeWindow(ready)); }
        }
        var calldata := EncodeJobCall(CompleteJob(job.id));
        return Sign(SignatureRequest(IntentComplete, i.marketplace, calldata, 0, i.chainId, 0));
      case Completed => return Done;
      case Expired => return Abort(JobExpired);
      case Timeout => return Abort(JobTimedOut);
      case Failed => return Abort(JobFailedOnChain);
      case Disputed => return Abort(JobDisputed);
    }
  }
}
