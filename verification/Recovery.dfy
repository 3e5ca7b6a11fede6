/** When a job goes on and when it has stopped for good. Between steps what is in memory and on disk
    decides: a nonce file cut short, or an artifacts file above the loader's cap that is no longer in
    memory, ends the job silently; in every other state the next commitment or reveal can be emitted. */
module Recovery {
  import opened Prelude
  import opened Marketplace
  import opened Proof
  import opened Lifecycle
  import opened NonceStore
  import opened CommitReveal
  import opened Execution

  /** The nonce file is absent or whole, and the artifacts are in memory, not yet made, or small enough
      to be loaded: what a caller can see in memory and in the two files. */
  predicate GoesOnWith(k: Kept) {
    && (k.nonce.Some? ==> |k.nonce.value| == 32)
    && (k.progress.artifacts.Some? || k.artifacts.None? || |k.artifacts.value| <= MAX_ARTIFACTS)
  }

  function KeptIn(s: Sys): Kept {
    Kept(s.progress, s.disk.nonce, s.disk.artifacts)
  }

  predicate Continues(s: Sys) {
    GoesOnWith(KeptIn(s))
  }

  /** The process is about to emit `req`. */
  ghost predicate AboutToEmit(c: Config, s: Sys, req: SignatureRequest) {
    s.pc.Ready? && Plan(PlanFor(c, s.pc.r, s.progress)) == Sign(req)
  }

  ghost predicate CommitsOrReveals(req: SignatureRequest) {
    DecodedCommitment(req.calldata).Some? || DecodedProof(req.calldata).Some?
  }

  /** Some path of the transition system leads from `s` to emitting `req`. */
  ghost predicate CanEmit(c: Config, s: Sys, req: SignatureRequest) {
    exists path :: PathTo(c, path, s, req)
  }

  ghost predicate PathTo(c: Config, path: seq<Sys>, s: Sys, req: SignatureRequest) {
    IsPath(c, path) && path[0] == s && AboutToEmit(c, path[|path| - 1], req)
  }

  // ---- stopped states stay stopped ----

  /** Stopped, at rest or in the part of a step that comes before the failing load. */
  ghost predicate Stopped(s: Sys) {
    || TornNonce(s)
    || (s.progress.artifacts.None? && s.disk.artifacts.Some? && |s.disk.artifacts.value| > MAX_ARTIFACTS
        && (s.pc == AtRest || s.pc.Reading? || s.pc.Seeded?))
  }

  lemma RestStopped(c: Config, s: Sys)
    requires Inv(c, s) && s.pc == AtRest && !Continues(s)
    ensures Stopped(s)
  {
  }

  lemma OversizedStep(c: Config, step: Step, s: Sys, t: Sys)
    requires Next(c, step, s, t) && s.progress.artifacts.None?
    requires s.disk.artifacts.Some? && |s.disk.artifacts.value| > MAX_ARTIFACTS && |s.disk.artifacts.value| >= 64
    requires s.disk.nonce.Some? && (s.pc == AtRest || s.pc.Reading? || s.pc.Seeded?)
    ensures Stopped(t) && t.disk == s.disk && t.emitted == s.emitted
  {
  }

  lemma StoppedStep(c: Config, step: Step, s: Sys, t: Sys)
    requires Inv(c, s) && Stopped(s) && Next(c, step, s, t)
    ensures Stopped(t) && t.disk == s.disk && t.emitted == s.emitted && Inv(c, t)
  {
    StepKeeps(c, step, s, t);
    if TornNonce(s) {
      TornStep(c, step, s, t);
    } else {
      OversizedStep(c, step, s, t);
    }
  }

  /** From a stopped state nothing is ever emitted again and no file changes, through restarts and
      whatever the relay and the chain do. */
  lemma {:induction false} StoppedForGood(c: Config, path: seq<Sys>, k: nat)
    requires IsPath(c, path) && k < |path| && Inv(c, path[0]) && Stopped(path[0])
    ensures Inv(c, path[k]) && Stopped(path[k])
    ensures path[k].disk == path[0].disk && path[k].emitted == path[0].emitted
  {
    if k > 0 {
      StoppedForGood(c, path, k - 1);
      assert Moves(c, path[k - 1], path[k - 1 + 1]);
      var step :| Next(c, step, path[k - 1], path[k]);
      StoppedStep(c, step, path[k - 1], path[k]);
    }
  }

  lemma StoppedEmitsNothing(c: Config, s: Sys, req: SignatureRequest)
    requires Inv(c, s) && Stopped(s)
    ensures !CanEmit(c, s, req)
  {
    forall path | PathTo(c, path, s, req)
      ensures false
    {
      StoppedForGood(c, path, |path| - 1);
    }
  }

  // ---- the other states go on ----

  /** A read in which the job is this provider's to commit or reveal. */
  predicate Timely(c: Config, r: Resolved) {
    && r.job.id == c.jobId && r.job.assignedProvider == c.me && r.job.state == Executing
    && EffectiveTier(PlanFor(c, r, FRESH)) == Commitment
    && r.currentBlock <= r.job.executionDeadline
    && (r.gates.commitmentBlock == 0 || r.currentBlock > r.gates.commitmentBlock)
  }

  /** Some timely read always exists. */
  function TimelyRead(c: Config, committed: bool): (r: Resolved)
    ensures Timely(c, r) && r.committed == committed
  {
    Resolved(Job(c.jobId, c.me, Zeros(32), 0, Commitment, Executing, c.me, 0, 0, U128_MAX, 0, 0, None),
             0, committed, ChainGates(Some(Commitment), 0, 0, false))
  }

  lemma Extended(c: Config, path: seq<Sys>, step: Step, t: Sys) returns (longer: seq<Sys>)
    requires IsPath(c, path) && Next(c, step, path[|path| - 1], t)
    ensures IsPath(c, longer) && longer[0] == path[0] && longer[|longer| - 1] == t
  {
    PathExtends(c, path, step, t);
    longer := path + [t];
  }

  /** Read the chain and load the stored nonce. */
  lemma LoadNonce(c: Config, s: Sys, r: Resolved, n: Word) returns (path: seq<Sys>)
    requires s.pc == AtRest && Truthful(c, r, s.chain) && r.job.assignedProvider == c.me && s.disk.nonce == Some(n)
    ensures IsPath(c, path) && path[0] == s
    ensures path[|path| - 1] == s.(pc := Seeded(r, n), progress := s.progress.(committed := r.committed))
  {
    var reading := s.(pc := Reading(r), progress := s.progress.(committed := r.committed));
    path := Extended(c, [s], Resolve(r), reading);
    path := Extended(c, path, NonceLoad(n), reading.(pc := Seeded(r, n)));
  }

  /** Read the chain and mint a nonce. */
  lemma MintNonce(c: Config, s: Sys, r: Resolved, n: Word) returns (path: seq<Sys>)
    requires s.pc == AtRest && Truthful(c, r, s.chain) && r.job.assignedProvider == c.me
    requires s.disk.nonce == None && !r.committed
    ensures IsPath(c, path) && path[0] == s
    ensures path[|path| - 1] == s.(pc := Seeded(r, n), progress := s.progress.(committed := false),
                                   disk := s.disk.(nonce := Some(n)))
  {
    var reading := s.(pc := Reading(r), progress := s.progress.(committed := false));
    var created := reading.(pc := Minting(r, n), disk := s.disk.(nonce := Some([])));
    var grown := created.(disk := s.disk.(nonce := Some(n)));
    path := Extended(c, [s], Resolve(r), reading);
    path := Extended(c, path, MintCreate(n), created);
    path := Extended(c, path, MintGrow(n), grown);
    path := Extended(c, path, MintDone, grown.(pc := Seeded(r, n)));
  }

  /** With artifacts on disk, in memory or loadable, a step gets ready with exactly those. */
  lemma ReadyFromFile(c: Config, s: Sys, r: Resolved) returns (path: seq<Sys>)
    requires Inv(c, s) && s.pc == AtRest && Continues(s) && s.disk.artifacts.Some?
    requires Truthful(c, r, s.chain) && r.job.assignedProvider == c.me
    ensures IsPath(c, path) && path[0] == s
    ensures var u, f := path[|path| - 1], s.disk.artifacts.value;
            && u.pc == Ready(r, f[32..64]) && u.disk == s.disk && u.chain == s.chain && u.emitted == s.emitted
            && u.progress.committed == r.committed && u.progress.artifacts == Some(FromProof(c.keccak, f))
  {
    var f := s.disk.artifacts.value;
    var n: Word := f[32..64];
    path := LoadNonce(c, s, r, n);
    var seeded := path[|path| - 1];
    if s.progress.artifacts.Some? {
      path := Extended(c, path, ArtifactsHeld, seeded.(pc := Ready(r, n)));
    } else {
      var art := FromProof(c.keccak, f);
      assert Holds(c.keccak, s.disk, art, MAX_ARTIFACTS);
      var loaded := seeded.progress.(artifacts := Some(art), nonce := Some(n));
      path := Extended(c, path, ArtifactsLoad(art), seeded.(pc := Ready(r, n), progress := loaded));
    }
  }

  /** What is planned in a timely step with artifacts in hand. */
  lemma TimelyPlan(c: Config, r: Resolved, p: Progress) returns (req: SignatureRequest)
    requires Timely(c, r) && p.artifacts.Some? && p.committed == r.committed
    ensures Plan(PlanFor(c, r, p)) == Sign(req)
    ensures !r.committed ==> DecodedCommitment(req.calldata) == Some(p.artifacts.value.commitment)
    ensures r.committed ==> DecodedProof(req.calldata) == Some(p.artifacts.value.proof)
  {
    var art := p.artifacts.value;
    req := Plan(PlanFor(c, r, p)).request;
    if r.committed {
      ResultCallDecodes(c.jobId, art.outputHash, art.proof);
    } else {
      CommitmentCallDecodes(c.jobId, art.commitment);
    }
  }

  /** A restart that finds the artifacts in a file within the cap goes straight to the commitment or, once
      that is on chain, to the reveal of exactly that file. */
  lemma FileIsUsed(c: Config, s: Sys, r: Resolved) returns (req: SignatureRequest)
    requires Inv(c, s) && s.pc == AtRest && Continues(s) && s.disk.artifacts.Some?
    requires Timely(c, r) && Truthful(c, r, s.chain)
    ensures CanEmit(c, s, req)
    ensures !r.committed ==> DecodedCommitment(req.calldata) == Some(s.disk.artifacts.value[..32])
    ensures r.committed ==> DecodedProof(req.calldata) == s.disk.artifacts
  {
    var f := s.disk.artifacts.value;
    var path := ReadyFromFile(c, s, r);
    req := TimelyPlan(c, r, path[|path| - 1].progress);
    ProofLayout(c.keccak, f[64..], f[32..64]);
    assert PathTo(c, path, s, req);
  }

  /** Inference and a complete save. */
  lemma InferAndSave(c: Config, s: Sys, r: Resolved, n: Word, output: Output) returns (path: seq<Sys>)
    requires s.pc == Seeded(r, n) && Timely(c, r) && s.progress.committed == r.committed && !r.committed
    requires s.progress.artifacts.None? && s.disk.artifacts.None? && s.disk.nonce == Some(n)
    requires s.progress.nonce.Some? ==> s.progress.nonce == Some(n)
    ensures IsPath(c, path) && path[0] == s
    ensures var u, art := path[|path| - 1], Build(c.keccak, output, n);
            && u.pc == AtRest && u.chain == s.chain && u.emitted == s.emitted
            && u.disk == Disk(Some(n), Some(art.proof), None)
            && u.progress == Progress(false, Some(art), Some(n))
  {
    var art := Build(c.keccak, output, n);
    var ready := s.(pc := Ready(r, n));
    path := Extended(c, [s], ArtifactsAbsent, ready);
    var saving := s.(pc := Saving(art, Removing), progress := Progress(false, Some(art), Some(n)));
    assert Plan(PlanFor(c, r, s.progress)) == RunInference;
    path := Extended(c, path, Infer(output), saving);
    var trail := FullSave(s.disk, art.proof);
    var saved := SavePath(c, saving, art, trail);
    PathsJoin(c, path, saved);
    path := path + saved[1..];
    path := Extended(c, path, SaveDone, saved[|saved| - 1].(pc := AtRest));
  }

  /** The five points of a save nothing interrupts. */
  lemma FullSave(d: Disk, proof: Bytes) returns (trail: seq<SavePoint>)
    ensures |trail| == 5 && trail[0] == SavePoint(Removing, d) && SaveRun(proof, trail)
    ensures trail[4] == SavePoint(Syncing, Disk(d.nonce, Some(proof), None))
  {
    var clean := d.(temp := None);
    trail := [SavePoint(Removing, d), SavePoint(Creating, clean), SavePoint(Writing, clean.(temp := Some([]))),
              SavePoint(Renaming, clean.(temp := Some(proof))), SavePoint(Syncing, Disk(d.nonce, Some(proof), None))];
  }

  /** Without artifacts a step can make some, of any output, under the stored or a fresh nonce. */
  lemma MakeArtifacts(c: Config, s: Sys, output: Output) returns (path: seq<Sys>)
    requires Inv(c, s) && s.pc == AtRest && Continues(s) && s.disk.artifacts.None?
    ensures IsPath(c, path) && path[0] == s
    ensures var u := path[|path| - 1];
            && u.pc == AtRest && u.disk.artifacts.Some? && u.progress.artifacts.Some?
            && |u.disk.artifacts.value| == 64 + |output| && u.chain == s.chain && u.emitted == s.emitted
  {
    var r := TimelyRead(c, false);
    var n: Word := if s.disk.nonce.Some? then s.disk.nonce.value else Zeros(32);
    if s.disk.nonce.Some? {
      path := LoadNonce(c, s, r, n);
    } else {
      path := MintNonce(c, s, r, n);
    }
    var more := InferAndSave(c, path[|path| - 1], r, n, output);
    PathsJoin(c, path, more);
    path := path + more[1..];
  }

  lemma {:induction false} PathKeepsInvariant(c: Config, path: seq<Sys>, k: nat)
    requires IsPath(c, path) && k < |path| && Inv(c, path[0])
    ensures Inv(c, path[k])
  {
    if k > 0 {
      PathKeepsInvariant(c, path, k - 1);
      assert Moves(c, path[k - 1], path[k - 1 + 1]);
      var step :| Next(c, step, path[k - 1], path[k]);
      StepKeeps(c, step, path[k - 1], path[k]);
    }
  }

  lemma Later(c: Config, path: seq<Sys>, req: SignatureRequest)
    requires IsPath(c, path) && CanEmit(c, path[|path| - 1], req)
    ensures CanEmit(c, path[0], req)
  {
    var more :| PathTo(c, more, path[|path| - 1], req);
    PathsJoin(c, path, more);
    assert PathTo(c, path + more[1..], path[0], req);
  }

  lemma SomethingToEmit(c: Config, s: Sys) returns (req: SignatureRequest)
    requires Inv(c, s) && s.pc == AtRest && Continues(s)
    ensures CanEmit(c, s, req) && DecodedCommitment(req.calldata).Some?
  {
    var r := TimelyRead(c, false);
    if s.disk.artifacts.Some? {
      req := FileIsUsed(c, s, r);
    } else {
      var path := MakeArtifacts(c, s, []);
      var u := path[|path| - 1];
      PathKeepsInvariant(c, path, |path| - 1);
      assert u.disk.nonce == Some(u.disk.artifacts.value[32..64]);
      req := FileIsUsed(c, u, r);
      Later(c, path, req);
    }
  }

  // ---- main results ----

  /** Between any two steps of any run, the job can still emit a commitment or a reveal if and only if the
      nonce file is absent or 32 bytes and the artifacts are in memory, not yet made, or within the cap. */
  lemma ContinuesIff(c: Config, run: seq<Sys>)
    requires IsRun(c, run) && run[|run| - 1].pc == AtRest
    ensures Continues(run[|run| - 1]) <==>
            exists req: SignatureRequest :: CommitsOrReveals(req) && CanEmit(c, run[|run| - 1], req)
  {
    var s := run[|run| - 1];
    RunKeepsInvariant(c, run, |run| - 1);
    if Continues(s) {
      var req := SomethingToEmit(c, s);
      assert CommitsOrReveals(req) && CanEmit(c, s, req);
    } else {
      RestStopped(c, s);
      forall req
        ensures !CanEmit(c, s, req)
      {
        StoppedEmitsNothing(c, s, req);
      }
    }
  }

  /** After a crash that means: the nonce file is absent or 32 bytes, and the artifacts file is absent or
      at most 64 MiB. */
  lemma RestartContinuesIff(c: Config, run: seq<Sys>)
    requires IsRun(c, run) && run[|run| - 1].pc == AtRest && run[|run| - 1].progress == FRESH
    ensures var s := run[|run| - 1];
            (exists req: SignatureRequest :: CommitsOrReveals(req) && CanEmit(c, s, req)) <==>
              && (s.disk.nonce.None? || |s.disk.nonce.value| == 32)
              && (s.disk.artifacts.None? || |s.disk.artifacts.value| <= 67_108_864)
  {
    ContinuesIff(c, run);
  }

  /** With the commitment on chain, a restarted process can reveal if and only if the artifacts file, which
      then exists, is within the cap; and what it reveals is that file. */
  lemma RestartRevealsIff(c: Config, run: seq<Sys>)
    requires IsRun(c, run) && run[|run| - 1].pc == AtRest && run[|run| - 1].progress == FRESH
    requires run[|run| - 1].chain.stored.Some?
    ensures var s := run[|run| - 1];
            && s.disk.artifacts.Some?
            && ((exists req: SignatureRequest ::
                   DecodedProof(req.calldata) == s.disk.artifacts && CanEmit(c, s, req)) <==>
                  |s.disk.artifacts.value| <= 67_108_864)
  {
    var s := run[|run| - 1];
    RunKeepsInvariant(c, run, |run| - 1);
    if |s.disk.artifacts.value| <= MAX_ARTIFACTS {
      var req := FileIsUsed(c, s, TimelyRead(c, true));
      assert DecodedProof(req.calldata) == s.disk.artifacts && CanEmit(c, s, req);
    } else {
      forall req
        ensures !CanEmit(c, s, req)
      {
        StoppedEmitsNothing(c, s, req);
      }
    }
  }

  // ---- both ways of stopping are reached ----

  function InitialState(): (s: Sys)
    ensures Init(s)
  {
    Sys(FRESH, AtRest, Disk(None, None, None), Chain(None, false, false), {})
  }

  lemma PathIsRun(c: Config, path: seq<Sys>)
    requires IsPath(c, path) && Init(path[0])
    ensures IsRun(c, path)
  {
  }

  /** A process killed right after it created the nonce file, or whose write of it fails, leaves the job
      stopped. */
  lemma TornReachable(c: Config, crash: bool) returns (run: seq<Sys>)
    ensures IsRun(c, run) && TornNonce(run[|run| - 1]) && !Continues(run[|run| - 1])
    ensures run[|run| - 1].pc == AtRest && run[|run| - 1].emitted == {}
  {
    var s, r, n := InitialState(), TimelyRead(c, false), Zeros(32);
    var reading := s.(pc := Reading(r));
    var created := reading.(pc := Minting(r, n), disk := s.disk.(nonce := Some([])));
    run := Extended(c, [s], Resolve(r), reading);
    run := Extended(c, run, MintCreate(n), created);
    run := Extended(c, run, if crash then Step.Crash else Step.Return, created.(pc := AtRest));
    PathIsRun(c, run);
  }

  /** And an output above the cap stops a restarted job with its commitment already on chain. The
      llama adapter delivers one only when its response cap, 16 MiB unless the operator raises it, has
      been raised above the loader's. */
  lemma OversizedReachable(c: Config) returns (run: seq<Sys>)
    ensures IsRun(c, run) && !Continues(run[|run| - 1])
    ensures run[|run| - 1].pc == AtRest && run[|run| - 1].progress == FRESH && run[|run| - 1].chain.stored.Some?
  {
    var s := InitialState();
    PathIsRun(c, [s]);
    RunKeepsInvariant(c, [s], 0);
    run := MakeArtifacts(c, s, Zeros(MAX_ARTIFACTS));
    PathIsRun(c, run);
    RunKeepsInvariant(c, run, |run| - 1);
    var u := run[|run| - 1];
    assert u.disk.nonce == Some(u.disk.artifacts.value[32..64]);
    var emitting := EmitAndLand(c, u);
    PathsJoin(c, run, emitting);
    run := run + emitting[1..];
    PathIsRun(c, run);
  }

  /** The commitment is emitted, lands, and the process is killed. */
  lemma EmitAndLand(c: Config, s: Sys) returns (path: seq<Sys>)
    requires Inv(c, s) && s.pc == AtRest && Continues(s) && s.disk.artifacts.Some?
    ensures IsPath(c, path) && path[0] == s
    ensures var u := path[|path| - 1];
            u.pc == AtRest && u.progress == FRESH && u.disk == s.disk && u.chain.stored.Some?
  {
    var r := TimelyRead(c, false);
    path := ReadyFromFile(c, s, r);
    var ready := path[|path| - 1];
    var req := TimelyPlan(c, r, ready.progress);
    var emitted := ready.(pc := AtRest, emitted := ready.emitted + {req});
    path := Extended(c, path, Emit(req), emitted);
    var landed := emitted.(chain := emitted.chain.(stored := DecodedCommitment(req.calldata)));
    path := Extended(c, path, Land(req), landed);
    path := Extended(c, path, Crash, landed.(progress := FRESH));
  }

  // ---- the code takes the step ----

  /** The progress a step plans on: what the chain says about the commitment, and the file's artifacts. */
  ghost function OnFile(c: Config, s: Sys, r: Resolved): Progress
    requires FileSound(c, s.disk)
  {
    var p := s.progress.(committed := r.committed);
    if p.artifacts.Some? || s.disk.artifacts.None? then p
    else p.(nonce := Some(s.disk.artifacts.value[32..64]),
            artifacts := Some(FromProof(c.keccak, s.disk.artifacts.value)))
  }

  /** The action is carried out. */
  predicate CarriedOut(outcome: StepOutcome, action: Action) {
    match action
    case RunInference => outcome == RanInference
    case Sign(req) => outcome == Signed(req.intent)
    case Done => outcome == JobDone
    case Idle => outcome == NotOurTurn
    case Wait(until) => outcome == Waiting(until)
    case Abort(why) => outcome == Aborted(why)
  }

  lemma LoadableFile(c: Config, s: Sys)
    requires FileSound(c, s.disk) && s.disk.artifacts.Some? && |s.disk.artifacts.value| <= MAX_ARTIFACTS
    ensures Holds(c.keccak, s.disk, FromProof(c.keccak, s.disk.artifacts.value), MAX_ARTIFACTS)
  {
  }

  /** The chain was read for our job, and the files a step has to touch can be read or written. */
  predicate FilesAnswer(c: Config, s: Sys, o: Oracle) {
    && o.resolved.Some? && o.resolved.value.job.assignedProvider == c.me
    && (s.disk.nonce.Some? ==> o.nonceReadable)
    && (s.disk.nonce.None? ==> o.minted.Some? && o.mintFault == Completes)
    && (s.progress.artifacts.None? && s.disk.artifacts.Some? ==> o.artifactsReadable && o.nonceReadableAgain)
  }

  /** The job is executing and nobody has made its artifacts yet. */
  predicate ArtifactsDue(s: Sys, r: Resolved) {
    r.job.state == Executing && s.progress.artifacts.None? && s.disk.artifacts.None?
  }

  /** An input was delivered, and the chain binds it. */
  predicate Delivered(c: Config, o: Oracle) {
    && o.resolved.Some? && o.input.Some? && o.input.value.Some?
    && o.resolved.value.job.inputHash == Some(c.keccak(o.input.value.value))
  }

  /** What a step asks for is answered: the input only while artifacts are due, a fitting size, weights,
      an inference and a save only if inference is planned, the signer only if a request is. */
  ghost predicate Healthy(c: Config, s: Sys, o: Oracle)
    requires FileSound(c, s.disk)
  {
    && FilesAnswer(c, s, o)
    && var r := o.resolved.value;
       var plan := Plan(PlanFor(c, r, OnFile(c, s, r)));
       && (ArtifactsDue(s, r) ==> Delivered(c, o))
       && (ArtifactsDue(s, r) && plan == RunInference ==>
             |o.input.value.value| <= o.maxInput && o.provisioned && o.inference.Some? && Saves(o))
       && (plan.Sign? ==> o.signerAccepts)
  }

  /** When what it asks for is answered, a step from any state between steps carries out exactly the
      planner's action on the file's artifacts if that state continues, and otherwise fails. */
  lemma HealthyStepFollowsPlan(c: Config, s: Sys, o: Oracle)
    requires Inv(c, s) && s.pc == AtRest && Healthy(c, s, o) && Truthful(c, o.resolved.value, s.chain)
    ensures Continues(s) ==>
              CarriedOut(Decide(c, s.progress, s.disk, o),
                         Plan(PlanFor(c, o.resolved.value, OnFile(c, s, o.resolved.value))))
    ensures !Continues(s) ==> Decide(c, s.progress, s.disk, o) == Error
  {
    if s.disk.artifacts.Some? && |s.disk.artifacts.value| <= MAX_ARTIFACTS {
      LoadableFile(c, s);
    }
    PlannedInference(c, s, o.resolved.value);
  }

  lemma PlannedInference(c: Config, s: Sys, r: Resolved)
    requires FileSound(c, s.disk)
    ensures Plan(PlanFor(c, r, OnFile(c, s, r))) == RunInference ==> ArtifactsDue(s, r)
  {
  }

  /** A step waits for the input if and only if artifacts are due and none was delivered. */
  lemma WaitsForInputIff(c: Config, s: Sys, o: Oracle)
    requires Inv(c, s) && s.pc == AtRest && Continues(s) && FilesAnswer(c, s, o)
    requires Truthful(c, o.resolved.value, s.chain)
    ensures Decide(c, s.progress, s.disk, o) == AwaitingInput <==>
              ArtifactsDue(s, o.resolved.value) && o.input == Some(None)
  {
    if s.disk.artifacts.Some? && |s.disk.artifacts.value| <= MAX_ARTIFACTS {
      LoadableFile(c, s);
    }
  }

  /** A job whose artifacts are in memory or can be loaded commits or, once the commitment is on chain,
      reveals, on every timely read the signer answers: whatever the input source, the gateway, the
      adapter and the disk's free space say. */
  lemma HeldArtifactsSpeak(c: Config, s: Sys, o: Oracle)
    requires Inv(c, s) && s.pc == AtRest && Continues(s) && s.disk.artifacts.Some? && FilesAnswer(c, s, o)
    requires Truthful(c, o.resolved.value, s.chain) && Timely(c, o.resolved.value) && o.signerAccepts
    ensures Decide(c, s.progress, s.disk, o)
         == Signed(if o.resolved.value.committed then IntentResult else IntentCommit)
  {
    HealthyStepFollowsPlan(c, s, o);
  }

  /** In particular a restarted process with the commitment on chain and its file within the cap answers a
      timely read by emitting the result. */
  lemma RestartedStepReveals(c: Config, s: Sys, o: Oracle)
    requires Inv(c, s) && s.pc == AtRest && s.progress == FRESH && FilesAnswer(c, s, o) && o.signerAccepts
    requires Truthful(c, o.resolved.value, s.chain) && Timely(c, o.resolved.value) && o.resolved.value.committed
    requires |s.disk.artifacts.value| <= MAX_ARTIFACTS
    ensures Decide(c, s.progress, s.disk, o) == Signed(IntentResult)
  {
    HeldArtifactsSpeak(c, s, o);
  }

  /** The input is asked for before the plan is made: a job that turns out unprovable waits for an input it
      has no use for, where the plan is to abort. */
  lemma AbortWaitsForInput(c: Config, o: Oracle)
    requires FilesAnswer(c, InitialState(), o) && o.input == Some(None) && o.resolved.value.job.id == c.jobId
    requires o.resolved.value.job.state == Executing && !o.resolved.value.committed
    requires EffectiveTier(PlanFor(c, o.resolved.value, FRESH)) != Commitment
    ensures Plan(PlanFor(c, o.resolved.value, FRESH)) == Abort(UnsupportedTier)
    ensures Decide(c, FRESH, InitialState().disk, o) == AwaitingInput
  {
    PathIsRun(c, [InitialState()]);
    RunKeepsInvariant(c, [InitialState()], 0);
    WaitsForInputIff(c, InitialState(), o);
  }

  /** What a step writes is whole or absent: no nonce cut short, no rename without its directory sync. */
  predicate SoundWrites(s: Sys, o: Oracle) {
    (s.disk.nonce.None? ==> o.mintFault == Completes || o.mintFault == CreateFails) && o.saveFault != DirSyncFails
  }

  /** Whatever else goes wrong, a step whose writes are sound neither stops a job that continues nor
      revives one that has stopped. */
  lemma SoundStepContinues(c: Config, s: Sys, o: Oracle)
    requires Inv(c, s) && s.pc == AtRest && SoundWrites(s, o)
    requires o.resolved.Some? ==> Truthful(c, o.resolved.value, s.chain)
    ensures GoesOnWith(KeptAfter(c, s.progress, s.disk, o)) <==> Continues(s)
  {
    if s.disk.artifacts.Some? && |s.disk.artifacts.value| <= MAX_ARTIFACTS {
      LoadableFile(c, s);
    }
  }

  // ---- many ticks ----

  /** One tick of the process, as its code takes it, with sound writes. */
  ghost predicate SoundTick(c: Config, s: Sys, o: Oracle, t: Sys) {
    && SoundWrites(s, o) && (o.resolved.Some? ==> Truthful(c, o.resolved.value, s.chain)) && t.pc == AtRest
    && (exists path :: IsPath(c, path) && path[0] == s && path[|path| - 1] == t)
    && KeptIn(t) == KeptAfter(c, s.progress, s.disk, o)
  }

  /** Between two states there is a sound tick, a landing or a restart that loses no oversized artifacts. */
  ghost predicate GoesWell(c: Config, s: Sys, t: Sys) {
    || (exists o :: SoundTick(c, s, o, t))
    || (exists req :: Next(c, Land(req), s, t))
    || (Next(c, Step.Crash, s, t) && (s.disk.artifacts.Some? ==> |s.disk.artifacts.value| <= MAX_ARTIFACTS))
  }

  ghost predicate AllWell(c: Config, history: seq<Sys>) {
    forall i :: 0 <= i < |history| - 1 ==> GoesWell(c, history[i], history[i + 1])
  }

  lemma WellKeeps(c: Config, s: Sys, t: Sys)
    requires Inv(c, s) && s.pc == AtRest && Continues(s) && GoesWell(c, s, t)
    ensures Inv(c, t) && t.pc == AtRest && Continues(t)
  {
    if o :| SoundTick(c, s, o, t) {
      SoundStepContinues(c, s, o);
      var path :| IsPath(c, path) && path[0] == s && path[|path| - 1] == t;
      PathKeepsInvariant(c, path, |path| - 1);
    } else if req :| Next(c, Land(req), s, t) {
      StepKeeps(c, Land(req), s, t);
    } else {
      StepKeeps(c, Step.Crash, s, t);
    }
  }

  /** Ticks compose: through any number of them, with failing reads, missing inputs, refused requests,
      landings and restarts in between, the job continues, and so every tick that is answered carries out
      its plan. */
  lemma {:induction false} HealthyTicksContinue(c: Config, history: seq<Sys>, k: nat)
    requires k < |history| && AllWell(c, history)
    requires Inv(c, history[0]) && history[0].pc == AtRest && Continues(history[0])
    ensures Inv(c, history[k]) && history[k].pc == AtRest && Continues(history[k])
    ensures forall o :: Healthy(c, history[k], o) && Truthful(c, o.resolved.value, history[k].chain) ==>
              CarriedOut(Decide(c, history[k].progress, history[k].disk, o),
                         Plan(PlanFor(c, o.resolved.value, OnFile(c, history[k], o.resolved.value))))
  {
    if k > 0 {
      HealthyTicksContinue(c, history, k - 1);
      assert GoesWell(c, history[k - 1], history[k - 1 + 1]);
      WellKeeps(c, history[k - 1], history[k]);
    }
    forall o | Healthy(c, history[k], o) && Truthful(c, o.resolved.value, history[k].chain)
      ensures CarriedOut(Decide(c, history[k].progress, history[k].disk, o),
                         Plan(PlanFor(c, o.resolved.value, OnFile(c, history[k], o.resolved.value))))
    {
      HealthyStepFollowsPlan(c, history[k], o);
    }
  }
}
