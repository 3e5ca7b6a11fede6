/** The crash-safe commit/reveal protocol as a transition system. One job is driven by a process
    whose memory a crash erases, a disk that outlives it, a relay that may land any emitted request
    at any later time or never, and a chain that runs the verifier's predicate on what lands. Every
    I/O result, every chain read and every inference output is arbitrary. */
module CommitReveal {
  import opened Prelude
  import opened Calldata
  import opened Marketplace
  import opened Proof
  import opened Lifecycle
  import opened NonceStore
  import K = ContractCalls

  datatype Config = Config(jobId: u128, me: Address, marketplace: Address, chainId: u64, keccak: Hash)

  /** What one `resolve` read from the chain. */
  datatype Resolved = Resolved(job: Job, currentBlock: u128, committed: bool, gates: ChainGates)

  /** `JobProgress` */
  datatype Progress = Progress(committed: bool, artifacts: Option<Artifacts>, nonce: Option<Word>)

  const FRESH := Progress(false, None, None)

  /** Where inside one `step` the process is. */
  datatype Pc =
    | AtRest
    | Reading(r: Resolved)
    | Minting(r: Resolved, nonce: Word)
    | Seeded(r: Resolved, seed: Word)
    | Ready(r: Resolved, seed: Word)
    | Saving(art: Artifacts, phase: SavePhase)

  /** The verifier contract's record of the job. */
  datatype Chain = Chain(stored: Option<Word>, verified: bool, rejected: bool)

  datatype Sys = Sys(progress: Progress, pc: Pc, disk: Disk, chain: Chain, emitted: set<SignatureRequest>)

  datatype Step =
    | Resolve(read: Resolved)
    | NonceLoad(found: Word)
    | MintCreate(minted: Word)
    | MintGrow(part: Bytes)
    | MintDone
    | ArtifactsHeld
    | ArtifactsLoad(loaded: Artifacts)
    | ArtifactsAbsent
    | Infer(output: Output)
    | Emit(request: SignatureRequest)
    | SaveMicro(point: SavePoint)
    | SaveDone
    | Return
    | Crash
    | Land(request: SignatureRequest)

  // ---- what the contracts read out of landed calldata ----

  /** The commitment argument of a `submitCommitment(uint256,bytes32)` call. */
  ghost function DecodedCommitment(calldata: Bytes): Option<Word> {
    match K.ReadSubmitCommitment(calldata)
    case Some(call) => Some(call.commitment)
    case None => None
  }

  /** The proof argument of a `submitResult(uint256,bytes,bytes)` call. */
  ghost function DecodedProof(calldata: Bytes): Option<Bytes> {
    match K.ReadSubmitResult(calldata)
    case Some(call) => Some(call.proof)
    case None => None
  }

  lemma CommitmentCallDecodes(jobId: u128, c: Word)
    ensures DecodedCommitment(CalldataOf(SubmitCommitment(jobId, c))) == Some(c)
    ensures DecodedProof(CalldataOf(SubmitCommitment(jobId, c))) == None
  {
    K.CommitmentReads(jobId, c);
    K.ReadsOnlyItsOwn(SubmitCommitment(jobId, c));
  }

  lemma ResultCallDecodes(jobId: u128, h: Vec, p: Vec)
    ensures DecodedProof(CalldataOf(SubmitResult(jobId, h, p))) == Some(p)
    ensures DecodedCommitment(CalldataOf(SubmitResult(jobId, h, p))) == None
  {
    K.ResultReads(jobId, h, p);
    K.ReadsOnlyItsOwn(SubmitResult(jobId, h, p));
  }

  lemma OtherCallsDecodeToNothing(w: Write)
    requires w.StartExecution? || w.CompleteJob?
    ensures DecodedCommitment(CalldataOf(w)) == None && DecodedProof(CalldataOf(w)) == None
  {
    K.ReadsOnlyItsOwn(w);
  }

  /** One request lands. A commitment is recorded, unless the contract ignores a second one; a result
      reverts without a commitment and is otherwise verified against it. */
  ghost predicate Lands(c: Config, req: SignatureRequest, a: Chain, b: Chain) {
    if DecodedCommitment(req.calldata).Some? then
      b == a || b == a.(stored := DecodedCommitment(req.calldata))
    else if DecodedProof(req.calldata).Some? && a.stored.Some? then
      if OnChainVerify(c.keccak, a.stored.value, DecodedProof(req.calldata).value)
      then b == a.(verified := true)
      else b == a.(rejected := true)
    else b == a
  }

  // ---- the transition relation ----

  function PlanFor(c: Config, r: Resolved, p: Progress): PlanInput {
    PlanInput(r.job, c.me, r.currentBlock, c.marketplace, c.chainId, p.committed, p.artifacts, r.gates)
  }

  /** A chain read may be stale but not invented: a commitment is reported only once one is stored. */
  ghost predicate Truthful(c: Config, r: Resolved, chain: Chain) {
    r.job.id == c.jobId && (r.committed ==> chain.stored.Some?)
  }

  ghost predicate Next(c: Config, step: Step, s: Sys, t: Sys) {
    match step
    case Resolve(r) =>
      && s.pc == AtRest && Truthful(c, r, s.chain) && r.job.assignedProvider == c.me
      && t == s.(pc := Reading(r), progress := s.progress.(committed := r.committed))
    case NonceLoad(n) =>
      && s.pc.Reading? && LoadedNonce(s.disk) == Ok(Some(n))
      && t == s.(pc := Seeded(s.pc.r, n))
    case MintCreate(n) =>
      && s.pc.Reading? && s.disk.nonce == None && !s.pc.r.committed
      && t == s.(pc := Minting(s.pc.r, n), disk := s.disk.(nonce := Some([])))
    case MintGrow(part) =>
      && s.pc.Minting? && s.disk.nonce.Some? && s.disk.nonce.value <= part <= s.pc.nonce
      && t == s.(disk := s.disk.(nonce := Some(part)))
    case MintDone =>
      && s.pc.Minting? && s.disk.nonce == Some(s.pc.nonce)
      && t == s.(pc := Seeded(s.pc.r, s.pc.nonce))
    case ArtifactsHeld =>
      && s.pc.Seeded? && s.progress.artifacts.Some?
      && t == s.(pc := Ready(s.pc.r, s.pc.seed))
    case ArtifactsLoad(art) =>
      && s.pc.Seeded? && s.progress.artifacts.None? && Holds(c.keccak, s.disk, art, MAX_ARTIFACTS)
      && t == s.(pc := Ready(s.pc.r, s.pc.seed),
                 progress := s.progress.(artifacts := Some(art), nonce := Some(s.pc.seed)))
    case ArtifactsAbsent =>
      && s.pc.Seeded? && s.progress.artifacts.None? && s.disk.artifacts.None?
      && !(s.pc.r.committed && s.pc.r.job.state == Executing)
      && t == s.(pc := Ready(s.pc.r, s.pc.seed))
    case Infer(output) =>
      && s.pc.Ready? && Plan(PlanFor(c, s.pc.r, s.progress)) == RunInference
      && var nonce := if s.progress.nonce.Some? then s.progress.nonce.value else s.pc.seed;
         var art := Build(c.keccak, output, nonce);
         t == s.(pc := Saving(art, Removing),
                 progress := s.progress.(artifacts := Some(art), nonce := Some(nonce)))
    case Emit(req) =>
      && s.pc.Ready? && Plan(PlanFor(c, s.pc.r, s.progress)) == Sign(req)
      && t == s.(pc := AtRest, emitted := s.emitted + {req})
    case SaveMicro(point) =>
      && s.pc.Saving? && SaveStep(s.pc.art.proof, SavePoint(s.pc.phase, s.disk), point)
      && t == s.(pc := s.pc.(phase := point.phase), disk := point.disk)
    case SaveDone =>
      && s.pc.Saving? && s.pc.phase == Syncing
      && t == s.(pc := AtRest)
    case Return =>
      t == s.(pc := AtRest,
              progress := if s.pc.Saving? then s.progress.(artifacts := None) else s.progress)
    case Crash =>
      t == s.(pc := AtRest, progress := FRESH)
    case Land(req) =>
      req in s.emitted && Lands(c, req, s.chain, t.chain) && t == s.(chain := t.chain)
  }

  ghost predicate Init(s: Sys) {
    && s.progress == FRESH && s.pc == AtRest
    && s.disk.nonce == None && s.disk.artifacts == None
    && s.chain == Chain(None, false, false) && s.emitted == {}
  }

  ghost predicate Moves(c: Config, s: Sys, t: Sys) {
    exists step :: Next(c, step, s, t)
  }

  ghost predicate IsRun(c: Config, run: seq<Sys>) {
    && |run| > 0 && Init(run[0])
    && forall i :: 0 <= i < |run| - 1 ==> Moves(c, run[i], run[i + 1])
  }

  // ---- the inductive invariant ----

  /** An artifacts file, if there is one, is complete and was built under the stored nonce. */
  ghost predicate FileSound(c: Config, d: Disk) {
    d.artifacts.Some? ==>
      && 64 <= |d.artifacts.value| <= VEC_MAX
      && d.nonce == Some(d.artifacts.value[32..64])
      && FromProof(c.keccak, d.artifacts.value).proof == d.artifacts.value
  }

  /** Artifacts in memory are those of the file. */
  ghost predicate MemoryOnDisk(c: Config, s: Sys) {
    s.progress.artifacts.Some? ==>
      && s.disk.artifacts == Some(s.progress.artifacts.value.proof)
      && |s.progress.artifacts.value.proof| >= 64
      && s.progress.artifacts.value == FromProof(c.keccak, s.progress.artifacts.value.proof)
  }

  ghost predicate PcSound(c: Config, s: Sys) {
    match s.pc
    case AtRest => MemoryOnDisk(c, s)
    case Reading(r) => MemoryOnDisk(c, s) && Truthful(c, r, s.chain) && s.progress.committed == r.committed
    case Minting(r, n) =>
      && MemoryOnDisk(c, s) && Truthful(c, r, s.chain) && s.progress.committed == r.committed
      && s.progress.nonce == None && s.disk.artifacts == None
      && s.disk.nonce.Some? && s.disk.nonce.value <= n
    case Seeded(r, seed) =>
      && MemoryOnDisk(c, s) && Truthful(c, r, s.chain) && s.progress.committed == r.committed
      && s.disk.nonce == Some(seed)
    case Ready(r, seed) =>
      && MemoryOnDisk(c, s) && Truthful(c, r, s.chain) && s.progress.committed == r.committed
      && s.disk.nonce == Some(seed)
      && (s.progress.artifacts.None? ==> s.disk.artifacts.None?)
    case Saving(art, phase) =>
      && s.progress.artifacts == Some(art)
      && |art.proof| >= 64 && art == FromProof(c.keccak, art.proof)
      && s.disk.nonce == Some(art.proof[32..64])
      && s.disk.artifacts == (if phase == Syncing then Some(art.proof) else None)
      && (phase == Renaming ==> s.disk.temp == Some(art.proof))
  }

  /** What an emitted write says about the disk and the chain. */
  ghost predicate WriteSound(c: Config, s: Sys, w: Write) {
    match w
    case StartExecution(id) => id == c.jobId
    case CompleteJob(id) => id == c.jobId
    case SubmitCommitment(id, commitment) =>
      && id == c.jobId && s.disk.artifacts.Some? && |s.disk.artifacts.value| >= 32
      && commitment == s.disk.artifacts.value[..32]
    case SubmitResult(id, hash, proof) =>
      && id == c.jobId && s.disk.artifacts == Some(proof) && s.chain.stored.Some?
      && |proof| >= 64 && hash == c.keccak(proof[64..])
    case _ => false
  }

  ghost predicate EmittedSound(c: Config, s: Sys, req: SignatureRequest) {
    Addressed(c, req) && exists w: Write :: Carries(req, w) && WriteSound(c, s, w)
  }

  /** It goes to the marketplace, on its chain, and sends no value. */
  predicate Addressed(c: Config, req: SignatureRequest) {
    req.to == c.marketplace && req.chainId == c.chainId && req.value == 0
  }

  /** The request is this write, under its own name, and only a completion has no expiry of its own. */
  ghost predicate Carries(req: SignatureRequest, w: Write) {
    && req.calldata == CalldataOf(w)
    && (w.StartExecution? ==> req.intent == IntentStart) && (w.CompleteJob? ==> req.intent == IntentComplete)
    && (w.SubmitCommitment? ==> req.intent == IntentCommit) && (w.SubmitResult? ==> req.intent == IntentResult)
    && (w.CompleteJob? ==> req.expiresBlock == 0)
  }

  ghost predicate ChainSound(c: Config, s: Sys) {
    && !s.chain.rejected
    && (s.chain.stored.Some? ==>
          && s.disk.artifacts.Some? && |s.disk.artifacts.value| >= 32
          && s.chain.stored.value == s.disk.artifacts.value[..32])
  }

  ghost predicate Inv(c: Config, s: Sys) {
    && (s.progress.nonce.Some? ==> s.disk.nonce == s.progress.nonce)
    && FileSound(c, s.disk)
    && PcSound(c, s)
    && (forall req :: req in s.emitted ==> EmittedSound(c, s, req))
    && ChainSound(c, s)
  }

  /** What no step ever undoes: a complete nonce, an artifacts file, an emitted request, a commitment. */
  ghost predicate Keeps(s: Sys, t: Sys) {
    && (s.disk.nonce.Some? && |s.disk.nonce.value| >= 32 ==> t.disk.nonce == s.disk.nonce)
    && (s.disk.artifacts.Some? ==> t.disk.artifacts == s.disk.artifacts)
    && s.emitted <= t.emitted
    && (s.chain.stored.Some? ==> t.chain.stored == s.chain.stored)
  }

  // ---- every step keeps the invariant ----

  /** Requests stay sound when artifacts file and commitment are not undone. */
  lemma EmittedStaySound(c: Config, s: Sys, t: Sys)
    requires forall req :: req in s.emitted ==> EmittedSound(c, s, req)
    requires Keeps(s, t)
    ensures forall req :: req in s.emitted ==> EmittedSound(c, t, req)
  {
    forall req | req in s.emitted
      ensures EmittedSound(c, t, req)
    {
      var w: Write :| Carries(req, w) && WriteSound(c, s, w);
      assert WriteSound(c, t, w);
    }
  }

  /** A sound file is a proof the verifier accepts against its own first word. */
  lemma SoundFileVerifies(c: Config, d: Disk)
    requires FileSound(c, d) && d.artifacts.Some?
    ensures OnChainVerify(c.keccak, d.artifacts.value[..32], d.artifacts.value)
  {
    var f := d.artifacts.value;
    ProofLayout(c.keccak, f[64..], f[32..64]);
  }

  lemma InferKeeps(c: Config, output: Output, s: Sys, t: Sys)
    requires Inv(c, s) && Next(c, Infer(output), s, t)
    ensures Inv(c, t) && Keeps(s, t)
  {
    var nonce := s.pc.seed;
    ProofLayout(c.keccak, output, nonce);
    ParseBuilt(c.keccak, output, nonce);
    EmittedStaySound(c, s, t);
  }

  /** The write behind a planned request. */
  lemma PlannedWrite(c: Config, req: SignatureRequest, s: Sys) returns (w: Write)
    requires Inv(c, s) && s.pc.Ready? && Plan(PlanFor(c, s.pc.r, s.progress)) == Sign(req)
    ensures Carries(req, w) && WriteSound(c, s, w) && Addressed(c, req)
  {
    var job := s.pc.r.job;
    if req.intent == IntentStart {
      w := StartExecution(job.id);
    } else if req.intent == IntentComplete {
      w := CompleteJob(job.id);
    } else {
      var art := s.progress.artifacts.value;
      ProofLayout(c.keccak, art.proof[64..], art.proof[32..64]);
      w := if req.intent == IntentCommit then SubmitCommitment(job.id, art.commitment)
           else SubmitResult(job.id, art.outputHash, art.proof);
    }
  }

  lemma EmitKeeps(c: Config, req: SignatureRequest, s: Sys, t: Sys)
    requires Inv(c, s) && Next(c, Emit(req), s, t)
    ensures Inv(c, t) && Keeps(s, t)
  {
    EmittedStaySound(c, s, t);
    var w := PlannedWrite(c, req, s);
    assert WriteSound(c, t, w);
    assert EmittedSound(c, t, req);
  }

  lemma SaveKeeps(c: Config, point: SavePoint, s: Sys, t: Sys)
    requires Inv(c, s) && Next(c, SaveMicro(point), s, t)
    ensures Inv(c, t) && Keeps(s, t)
  {
    EmittedStaySound(c, s, t);
  }

  lemma MintGrowKeeps(c: Config, part: Bytes, s: Sys, t: Sys)
    requires Inv(c, s) && Next(c, MintGrow(part), s, t)
    ensures Inv(c, t) && Keeps(s, t)
  {
    if |s.disk.nonce.value| >= 32 {
      assert part == s.disk.nonce.value;
    }
    EmittedStaySound(c, s, t);
  }

  lemma LandCommitmentKeeps(c: Config, commitment: Word, s: Sys, t: Sys)
    requires Inv(c, s) && t == s.(chain := t.chain)
    requires s.disk.artifacts.Some? && |s.disk.artifacts.value| >= 32 && commitment == s.disk.artifacts.value[..32]
    requires t.chain == s.chain || t.chain == s.chain.(stored := Some(commitment))
    ensures Inv(c, t) && Keeps(s, t)
  {
    EmittedStaySound(c, s, t);
  }

  lemma LandResultKeeps(c: Config, proof: Vec, s: Sys, t: Sys)
    requires Inv(c, s) && t == s.(chain := t.chain)
    requires s.disk.artifacts == Some(proof) && s.chain.stored.Some?
    requires t.chain == if OnChainVerify(c.keccak, s.chain.stored.value, proof)
                        then s.chain.(verified := true) else s.chain.(rejected := true)
    ensures Inv(c, t) && Keeps(s, t)
  {
    SoundFileVerifies(c, s.disk);
    EmittedStaySound(c, s, t);
  }

  lemma LandKeeps(c: Config, req: SignatureRequest, s: Sys, t: Sys)
    requires Inv(c, s) && Next(c, Land(req), s, t)
    ensures Inv(c, t) && Keeps(s, t)
  {
    assert EmittedSound(c, s, req);
    var w: Write :| Carries(req, w) && WriteSound(c, s, w);
    if w.SubmitCommitment? {
      CommitmentCallDecodes(w.jobId, w.commitment);
      LandCommitmentKeeps(c, w.commitment, s, t);
    } else if w.SubmitResult? {
      ResultCallDecodes(w.jobId, w.outputHash, w.proof);
      LandResultKeeps(c, w.proof, s, t);
    } else {
      OtherCallsDecodeToNothing(w);
    }
  }

  /** Steps that only read, return or crash. */
  lemma QuietStepKeeps(c: Config, step: Step, s: Sys, t: Sys)
    requires Inv(c, s) && Next(c, step, s, t)
    requires t.disk == s.disk && t.chain == s.chain && t.emitted == s.emitted && !step.Infer? && !step.SaveMicro?
    ensures Inv(c, t) && Keeps(s, t)
  {
    EmittedStaySound(c, s, t);
  }

  lemma MintCreateKeeps(c: Config, n: Word, s: Sys, t: Sys)
    requires Inv(c, s) && Next(c, MintCreate(n), s, t)
    ensures Inv(c, t) && Keeps(s, t)
  {
    EmittedStaySound(c, s, t);
  }

  /** Every micro-step keeps the invariant and undoes nothing durable. */
  lemma StepKeeps(c: Config, step: Step, s: Sys, t: Sys)
    requires Inv(c, s) && Next(c, step, s, t)
    ensures Inv(c, t) && Keeps(s, t)
  {
    match step {
      case MintCreate(n) => MintCreateKeeps(c, n, s, t);
      case MintGrow(part) => MintGrowKeeps(c, part, s, t);
      case Infer(output) => InferKeeps(c, output, s, t);
      case Emit(req) => EmitKeeps(c, req, s, t);
      case SaveMicro(point) => SaveKeeps(c, point, s, t);
      case Land(req) => LandKeeps(c, req, s, t);
      case _ => QuietStepKeeps(c, step, s, t);
    }
  }

  lemma {:induction false} RunKeepsInvariant(c: Config, run: seq<Sys>, k: nat)
    requires IsRun(c, run) && k < |run|
    ensures Inv(c, run[k])
  {
    if k > 0 {
      RunKeepsInvariant(c, run, k - 1);
      assert Moves(c, run[k - 1], run[k - 1 + 1]);
      var step :| Next(c, step, run[k - 1], run[k]);
      StepKeeps(c, step, run[k - 1], run[k]);
    }
  }

  // ---- main results ----

  /** Emitted requests by what a contract reads in them. */
  ghost predicate Commits(s: Sys, req: SignatureRequest, commitment: Word) {
    req in s.emitted && DecodedCommitment(req.calldata) == Some(commitment)
  }

  ghost predicate Reveals(s: Sys, req: SignatureRequest, proof: Bytes) {
    req in s.emitted && DecodedProof(req.calldata) == Some(proof)
  }

  /** What the protocol promises about everything ever emitted: one commitment, every result a proof
      the verifier accepts against it, no result before a commitment is on chain, and nothing the
      chain ever evaluated was rejected. */
  ghost predicate Safe(c: Config, s: Sys) {
    && !s.chain.rejected
    && (forall x, y, a, b :: Commits(s, x, a) && Commits(s, y, b) ==> a == b)
    && (forall x, y, a, p :: Commits(s, x, a) && Reveals(s, y, p) ==> OnChainVerify(c.keccak, a, p))
    && (forall y, p :: Reveals(s, y, p) ==>
          s.chain.stored.Some? && OnChainVerify(c.keccak, s.chain.stored.value, p))
  }

  /** An emitted commitment is the first word of the artifacts file, an emitted proof the whole file. */
  lemma EmittedMeans(c: Config, s: Sys, req: SignatureRequest)
    requires Inv(c, s) && req in s.emitted
    ensures DecodedCommitment(req.calldata).Some? ==>
              && s.disk.artifacts.Some? && |s.disk.artifacts.value| >= 32
              && DecodedCommitment(req.calldata) == Some(s.disk.artifacts.value[..32])
    ensures DecodedProof(req.calldata).Some? ==>
              s.disk.artifacts == DecodedProof(req.calldata) && s.chain.stored.Some?
  {
    assert EmittedSound(c, s, req);
    var w: Write :| Carries(req, w) && WriteSound(c, s, w);
    match w {
      case SubmitCommitment(id, commitment) => CommitmentCallDecodes(id, commitment);
      case SubmitResult(id, hash, proof) => ResultCallDecodes(id, hash, proof);
      case _ => OtherCallsDecodeToNothing(w);
    }
  }

  lemma InvariantIsSafe(c: Config, s: Sys)
    requires Inv(c, s)
    ensures Safe(c, s)
  {
    forall req | req in s.emitted
      ensures DecodedCommitment(req.calldata).Some? ==>
                && s.disk.artifacts.Some? && |s.disk.artifacts.value| >= 32
                && DecodedCommitment(req.calldata) == Some(s.disk.artifacts.value[..32])
      ensures DecodedProof(req.calldata).Some? ==>
                s.disk.artifacts == DecodedProof(req.calldata) && s.chain.stored.Some?
    {
      EmittedMeans(c, s, req);
    }
    if s.disk.artifacts.Some? {
      SoundFileVerifies(c, s.disk);
    }
  }

  /** Over every run that interleaves steps, I/O failures, crashes at any micro-step, arbitrary
      inference and arbitrary relay and chain lag, every state reached is safe. */
  lemma CommitRevealSafety(c: Config, run: seq<Sys>)
    requires IsRun(c, run)
    ensures forall k :: 0 <= k < |run| ==> Safe(c, run[k])
  {
    forall k | 0 <= k < |run|
      ensures Safe(c, run[k])
    {
      RunKeepsInvariant(c, run, k);
      InvariantIsSafe(c, run[k]);
    }
  }

  /** The four calls a job with these artifacts can need. */
  ghost function CallsFor(c: Config, art: Artifacts): set<Bytes> {
    {CalldataOf(StartExecution(c.jobId)), CalldataOf(SubmitCommitment(c.jobId, art.commitment)),
     CalldataOf(SubmitResult(c.jobId, art.outputHash, art.proof)), CalldataOf(CompleteJob(c.jobId))}
  }

  /** Whatever was emitted over a run, through any number of crashes, is among four calls. */
  lemma FourCalls(c: Config, run: seq<Sys>) returns (art: Artifacts)
    requires IsRun(c, run)
    ensures forall req :: req in run[|run| - 1].emitted ==> req.calldata in CallsFor(c, art)
  {
    var s := run[|run| - 1];
    RunKeepsInvariant(c, run, |run| - 1);
    if s.disk.artifacts.Some? {
      var f := s.disk.artifacts.value;
      art := FromProof(c.keccak, f);
      ProofLayout(c.keccak, f[64..], f[32..64]);
    } else {
      art := Build(c.keccak, [], Zeros(32));
    }
    forall req | req in s.emitted
      ensures req.calldata in CallsFor(c, art)
    {
      assert EmittedSound(c, s, req);
      var w: Write :| Carries(req, w) && WriteSound(c, s, w);
      OneOfFour(c, s, w, art);
    }
  }

  lemma OneOfFour(c: Config, s: Sys, w: Write, art: Artifacts)
    requires WriteSound(c, s, w)
    requires s.disk.artifacts.Some? && |s.disk.artifacts.value| >= 64 ==>
               && art.proof == s.disk.artifacts.value && art.commitment == s.disk.artifacts.value[..32]
               && art.outputHash == c.keccak(s.disk.artifacts.value[64..])
    requires s.disk.artifacts.Some? ==> |s.disk.artifacts.value| >= 64
    ensures CalldataOf(w) in CallsFor(c, art)
  {
  }

  /** Over every run each emitted request goes to the marketplace on its chain without value, and a
      contract that reads its calldata finds the call its name promises, for this job. */
  lemma EmittedRequestsAreTheJobs(c: Config, run: seq<Sys>, req: SignatureRequest)
    requires IsRun(c, run) && req in run[|run| - 1].emitted
    ensures req.to == c.marketplace && req.chainId == c.chainId && req.value == 0
    ensures match req.intent
            case IntentStart => K.ReadStartExecution(req.calldata) == Some(c.jobId)
            case IntentCommit =>
              var call := K.ReadSubmitCommitment(req.calldata); call.Some? && call.value.jobId == c.jobId
            case IntentResult =>
              var call := K.ReadSubmitResult(req.calldata);
              && call.Some? && call.value.jobId == c.jobId
              && |call.value.proof| >= 64 && call.value.outputHash == c.keccak(call.value.proof[64..])
            case IntentComplete => K.ReadCompleteJob(req.calldata) == Some(c.jobId) && req.expiresBlock == 0
            case _ => false
  {
    var s := run[|run| - 1];
    RunKeepsInvariant(c, run, |run| - 1);
    assert EmittedSound(c, s, req);
    var w: Write :| Carries(req, w) && WriteSound(c, s, w);
    match w {
      case SubmitCommitment(id, commitment) => K.CommitmentReads(id, commitment);
      case SubmitResult(id, hash, proof) => K.ResultReads(id, hash, proof);
      case _ => K.JobCallsRead(c.jobId);
    }
  }

  lemma {:induction false} RunKeeps(c: Config, run: seq<Sys>, i: nat, j: nat)
    requires IsRun(c, run) && i <= j < |run|
    ensures Keeps(run[i], run[j])
    decreases j
  {
    if i < j {
      RunKeeps(c, run, i, j - 1);
      RunKeepsInvariant(c, run, j - 1);
      assert Moves(c, run[j - 1], run[j - 1 + 1]);
      var step :| Next(c, step, run[j - 1], run[j]);
      StepKeeps(c, step, run[j - 1], run[j]);
    }
  }

  /** Once a commitment has been emitted, the final artifacts file holds exactly the artifact it
      belongs to, and from then on, through any number of crashes, neither that file nor the nonce
      file it was built under ever changes. */
  lemma CommittedArtifactsAreDurable(c: Config, run: seq<Sys>, i: nat, j: nat, req: SignatureRequest, commitment: Word)
    requires IsRun(c, run) && i <= j < |run|
    requires Commits(run[i], req, commitment)
    ensures run[i].disk.artifacts.Some? && |run[i].disk.artifacts.value| >= 64
    ensures OnChainVerify(c.keccak, commitment, run[i].disk.artifacts.value)
    ensures run[i].disk.nonce == Some(run[i].disk.artifacts.value[32..64])
    ensures run[j].disk.artifacts == run[i].disk.artifacts && run[j].disk.nonce == run[i].disk.nonce
  {
    RunKeepsInvariant(c, run, i);
    EmittedMeans(c, run[i], req);
    SoundFileVerifies(c, run[i].disk);
    RunKeeps(c, run, i, j);
  }

  /** Between steps, artifacts in memory are exactly those of the file, whatever failed before; and
      in every state, mid-save included, the final path holds a complete file under the stored nonce. */
  lemma MemoryAgreesWithDisk(c: Config, run: seq<Sys>, k: nat)
    requires IsRun(c, run) && k < |run|
    ensures FileSound(c, run[k].disk)
    ensures run[k].pc == AtRest && run[k].progress.artifacts.Some? ==>
              && run[k].disk.artifacts.Some? && |run[k].disk.artifacts.value| >= 64
              && run[k].progress.artifacts == Some(FromProof(c.keccak, run[k].disk.artifacts.value))
              && run[k].progress.artifacts.value.proof == run[k].disk.artifacts.value
  {
    RunKeepsInvariant(c, run, k);
  }

  // ---- a nonce write cut short ----

  /** The nonce file exists but is incomplete and the process that was writing it is gone. */
  ghost predicate TornNonce(s: Sys) {
    s.disk.nonce.Some? && |s.disk.nonce.value| != 32 && (s.pc == AtRest || s.pc.Reading?)
  }

  lemma TornStep(c: Config, step: Step, s: Sys, t: Sys)
    requires Inv(c, s) && TornNonce(s) && Next(c, step, s, t)
    ensures TornNonce(t) && t.disk == s.disk && t.emitted == s.emitted
  {
  }

  lemma TornMove(c: Config, run: seq<Sys>, k: nat)
    requires IsRun(c, run) && k < |run| - 1 && TornNonce(run[k])
    ensures TornNonce(run[k + 1]) && run[k + 1].disk == run[k].disk && run[k + 1].emitted == run[k].emitted
  {
    RunKeepsInvariant(c, run, k);
    assert Moves(c, run[k], run[k + 1]);
    var step :| Next(c, step, run[k], run[k + 1]);
    TornStep(c, step, run[k], run[k + 1]);
  }

  lemma {:induction false} TornStays(c: Config, run: seq<Sys>, i: nat, j: nat)
    requires IsRun(c, run) && i <= j < |run| && TornNonce(run[i])
    ensures TornNonce(run[j]) && run[j].disk == run[i].disk && run[j].emitted == run[i].emitted
    decreases j
  {
    if i < j {
      TornStays(c, run, i, j - 1);
      TornMove(c, run, j - 1);
    }
  }

  lemma TornMeansUncommitted(c: Config, s: Sys)
    requires Inv(c, s) && TornNonce(s)
    ensures forall req, a :: !Commits(s, req, a)
  {
    forall req, a
      ensures !Commits(s, req, a)
    {
      if req in s.emitted {
        EmittedMeans(c, s, req);
      }
    }
  }

  /** A crash in the middle of minting leaves a nonce no step accepts: nothing had been emitted for a
      commitment, and from then on nothing is emitted and no file changes. The job is lost, not slashed
      for a mismatch. */
  lemma TornNonceStopsTheJob(c: Config, run: seq<Sys>, i: nat, j: nat)
    requires IsRun(c, run) && i <= j < |run| && TornNonce(run[i])
    ensures TornNonce(run[j]) && run[j].disk == run[i].disk && run[j].emitted == run[i].emitted
    ensures forall req, a :: !Commits(run[j], req, a)
  {
    TornStays(c, run, i, j);
    RunKeepsInvariant(c, run, j);
    TornMeansUncommitted(c, run[j]);
  }
}
