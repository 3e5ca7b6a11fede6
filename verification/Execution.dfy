/** `JobExecutor`: the code that runs one step of a won job, with every I/O answer supplied by an
    oracle. Each step is shown to be a path of the commit/reveal transition system, so whatever that
    system promises in all its states holds at every point where the process could be killed. */
module Execution {
  import opened Prelude
  import opened Marketplace
  import opened Proof
  import opened Lifecycle
  import opened NonceStore
  import opened CommitReveal

  /** The answers the outside world gives during one step. */
  datatype Oracle = Oracle(
    resolved: Option<Resolved>,
    nonceReadable: bool,
    minted: Option<Word>,
    mintFault: WriteFault,
    artifactsReadable: bool,
    nonceReadableAgain: bool,
    input: Option<Option<Bytes>>,
    maxInput: nat,
    provisioned: bool,
    inference: Option<Output>,
    signerAccepts: bool,
    saveFault: SaveFault)

  datatype StepOutcome =
    | Signed(intent: WriteIntent)
    | RanInference
    | JobDone
    | NotOurTurn
    | AwaitingInput
    | InfeasibleInput
    | Aborted(why: AbortReason)
    | Waiting(until: WaitReason)
    | Error

  // ---- what a step makes of the oracle's answers ----

  /** The nonce of a step: the stored one; a fresh one only if none was ever stored, nothing is committed
      on chain and minting goes through. */
  function NonceFor(disk: Disk, r: Resolved, o: Oracle): Option<Word> {
    match disk.nonce
    case Some(f) => if o.nonceReadable && |f| == 32 then Some(f) else None
    case None => if !r.committed && o.mintFault == Completes then o.minted else None
  }

  /** What `load_artifacts` finds. */
  ghost function Reloaded(keccak: Hash, disk: Disk, o: Oracle): Result<Option<Artifacts>, ()> {
    match disk.artifacts
    case None => Ok(None)
    case Some(f) =>
      if o.artifactsReadable && o.nonceReadableAgain && 64 <= |f| <= MAX_ARTIFACTS
         && Holds(keccak, disk, FromProof(keccak, f), MAX_ARTIFACTS)
      then Ok(Some(FromProof(keccak, f))) else Err(())
  }

  /** Progress once the artifacts are settled; `None` when the step must stop. */
  ghost function Restored(keccak: Hash, p: Progress, disk: Disk, r: Resolved, seed: Word, o: Oracle): Option<Progress> {
    if p.artifacts.Some? then Some(p) else
      match Reloaded(keccak, disk, o)
      case Ok(Some(art)) => Some(p.(nonce := Some(seed), artifacts := Some(art)))
      case Ok(None) => if r.committed && r.job.state == Executing then None else Some(p)
      case Err(_) => None
  }

  predicate NeedsInput(r: Resolved, p: Progress) {
    r.job.state == Executing && p.artifacts.None?
  }

  function InputFor(keccak: Hash, r: Resolved, p: Progress, o: Oracle): Result<Bytes, StepOutcome> {
    if !NeedsInput(r, p) then Ok([]) else
      match o.input
      case None => Err(Error)
      case Some(None) => Err(AwaitingInput)
      case Some(Some(b)) => if r.job.inputHash == Some(keccak(b)) then Ok(b) else Err(Error)
  }

  predicate Saves(o: Oracle) {
    o.saveFault == SaveOk || o.saveFault == TempFails(Completes)
  }

  /** What `drive_job` makes of a planned action on an input of this size. */
  function OutcomeOf(action: Action, size: nat, o: Oracle): StepOutcome {
    match action
    case RunInference =>
      if size > o.maxInput then InfeasibleInput
      else if o.provisioned && o.inference.Some? then RanInference
      else Error
    case Sign(req) => if o.signerAccepts then Signed(req.intent) else Error
    case Done => JobDone
    case Idle => NotOurTurn
    case Wait(until) => Waiting(until)
    case Abort(why) => Aborted(why)
  }

  /** An inference whose artifacts could not be saved is an error. */
  function Settled(outcome: StepOutcome, o: Oracle): StepOutcome {
    if outcome == RanInference && !Saves(o) then Error else outcome
  }

  /** The nonce file after a step. */
  function NonceAfter(disk: Disk, r: Resolved, o: Oracle): Option<Bytes> {
    if disk.nonce.Some? then disk.nonce
    else if r.committed || o.minted.None? then None
    else MintedFile(o.minted.value, o.mintFault)
  }

  /** Progress after an inference: the job keeps the nonce it already has. */
  ghost function Inferred(keccak: Hash, p: Progress, seed: Word, output: Output): Progress {
    var nonce := if p.nonce.Some? then p.nonce.value else seed;
    p.(nonce := Some(nonce), artifacts := Some(Build(keccak, output, nonce)))
  }

  /** What survives a step: memory, and the two files later steps read. */
  datatype Kept = Kept(progress: Progress, nonce: Option<Bytes>, artifacts: Option<Bytes>)

  /** What acting on a plan leaves, when the step got ready with progress `q`. Only an inference changes
      anything: saved artifacts stay in memory, others are forgotten, and the file is the new one as soon
      as the rename went through. */
  ghost function KeptByAction(keccak: Hash, action: Action, q: Progress, seed: Word, size: nat, o: Oracle,
                              nonce: Option<Bytes>, artifacts: Option<Bytes>): Kept
  {
    if OutcomeOf(action, size, o) == RanInference && o.inference.Some? then
      var p := Inferred(keccak, q, seed, o.inference.value);
      Kept(if Saves(o) then p else p.(artifacts := None), nonce,
           if Saves(o) || o.saveFault == DirSyncFails then Some(p.artifacts.value.proof) else artifacts)
    else Kept(q, nonce, artifacts)
  }

  /** What a step leaves, from the memory and the disk it starts with. */
  ghost function KeptAfter(c: Config, p: Progress, disk: Disk, o: Oracle): Kept {
    if o.resolved.None? || o.resolved.value.job.assignedProvider != c.me
    then Kept(p, disk.nonce, disk.artifacts)
    else
      var r := o.resolved.value;
      var p1, file := p.(committed := r.committed), NonceAfter(disk, r, o);
      match NonceFor(disk, r, o)
      case None => Kept(p1, file, disk.artifacts)
      case Some(n) =>
        match Restored(c.keccak, p1, disk.(nonce := Some(n)), r, n, o)
        case None => Kept(p1, file, disk.artifacts)
        case Some(q) =>
          match InputFor(c.keccak, r, q, o)
          case Err(_) => Kept(q, file, disk.artifacts)
          case Ok(input) =>
            KeptByAction(c.keccak, Plan(PlanFor(c, r, q)), q, n, |input|, o, file, disk.artifacts)
  }

  /** The first half of a step ends with this nonce, input and progress. */
  ghost predicate PreparedAs(c: Config, r: Resolved, o: Oracle, p: Progress, disk: Disk,
                             seed: Option<Word>, input: Result<Bytes, StepOutcome>, p': Progress)
  {
    && seed == NonceFor(disk, r, o)
    && match seed
       case None => input == Err(Error) && p' == p.(committed := r.committed)
       case Some(n) =>
         match Restored(c.keccak, p.(committed := r.committed), disk.(nonce := Some(n)), r, n, o)
         case None => input == Err(Error) && p' == p.(committed := r.committed)
         case Some(q) => p' == q && input == InputFor(c.keccak, r, q, o)
  }

  /** What a step reports, from the memory and the disk it starts with. */
  ghost function Decide(c: Config, p: Progress, disk: Disk, o: Oracle): StepOutcome {
    if o.resolved.None? then Error
    else if o.resolved.value.job.assignedProvider != c.me then NotOurTurn
    else
      var r := o.resolved.value;
      match NonceFor(disk, r, o)
      case None => Error
      case Some(n) =>
        match Restored(c.keccak, p.(committed := r.committed), disk.(nonce := Some(n)), r, n, o)
        case None => Error
        case Some(q) =>
          match InputFor(c.keccak, r, q, o)
          case Err(e) => e
          case Ok(input) => Settled(OutcomeOf(Plan(PlanFor(c, r, q)), |input|, o), o)
  }

  lemma DecidedByHalves(c: Config, r: Resolved, o: Oracle, p: Progress, disk: Disk,
                        seed: Option<Word>, input: Result<Bytes, StepOutcome>, p': Progress)
    requires o.resolved == Some(r) && r.job.assignedProvider == c.me
    requires PreparedAs(c, r, o, p, disk, seed, input, p')
    ensures Decide(c, p, disk, o) ==
              if input.Err? then input.error
              else Settled(OutcomeOf(Plan(PlanFor(c, r, p')), |input.value|, o), o)
  {
  }

  lemma KeptByHalves(c: Config, r: Resolved, o: Oracle, p: Progress, disk: Disk,
                     seed: Option<Word>, input: Result<Bytes, StepOutcome>, p': Progress)
    requires o.resolved == Some(r) && r.job.assignedProvider == c.me
    requires PreparedAs(c, r, o, p, disk, seed, input, p') && (input.Ok? ==> seed.Some?)
    ensures KeptAfter(c, p, disk, o) ==
              if input.Err? then Kept(p', NonceAfter(disk, r, o), disk.artifacts)
              else KeptByAction(c.keccak, Plan(PlanFor(c, r, p')), p', seed.value, |input.value|, o,
                                NonceAfter(disk, r, o), disk.artifacts)
  {
  }

  /** Artifacts returned by the loader are the ones `Reloaded` names. */
  lemma LoaderFinds(keccak: Hash, disk: Disk, o: Oracle, loaded: Result<Option<Artifacts>, IoError>)
    requires forall art :: loaded == Ok(Some(art)) <==>
               o.artifactsReadable && o.nonceReadableAgain && Holds(keccak, disk, art, MAX_ARTIFACTS)
    requires loaded == Ok(None) <==> disk.artifacts.None?
    ensures match Reloaded(keccak, disk, o) case Ok(v) => loaded == Ok(v) case Err(_) => loaded.Err?
  {
    if loaded.Ok? && loaded.value.Some? {
      assert Holds(keccak, disk, loaded.value.value, MAX_ARTIFACTS);
    }
  }

  /** Consecutive states are micro-steps apart. */
  ghost predicate IsPath(c: Config, path: seq<Sys>) {
    |path| > 0 && forall i :: 0 <= i < |path| - 1 ==> Moves(c, path[i], path[i + 1])
  }

  lemma PathExtends(c: Config, path: seq<Sys>, step: Step, t: Sys)
    requires IsPath(c, path) && Next(c, step, path[|path| - 1], t)
    ensures IsPath(c, path + [t])
  {
    var longer := path + [t];
    assert Moves(c, path[|path| - 1], t);
    forall i | 0 <= i < |longer| - 1
      ensures Moves(c, longer[i], longer[i + 1])
    {
      if i < |path| - 1 {
        assert Moves(c, path[i], path[i + 1]);
      }
    }
  }

  lemma {:induction false} PathsJoin(c: Config, a: seq<Sys>, b: seq<Sys>)
    requires IsPath(c, a) && IsPath(c, b) && a[|a| - 1] == b[0]
    ensures IsPath(c, a + b[1..]) && (a + b[1..])[|a + b[1..]| - 1] == b[|b| - 1]
  {
    var joined := a + b[1..];
    forall i | 0 <= i < |joined| - 1
      ensures Moves(c, joined[i], joined[i + 1])
    {
      if i < |a| - 1 {
        assert Moves(c, a[i], a[i + 1]);
      } else {
        var k := i - (|a| - 1);
        assert Moves(c, b[k], b[k + 1]);
      }
    }
  }

  /** A run followed by a path from its last state is a run. */
  lemma RunContinues(c: Config, run: seq<Sys>, path: seq<Sys>)
    requires IsRun(c, run) && IsPath(c, path) && run[|run| - 1] == path[0]
    ensures IsRun(c, run + path[1..])
  {
    PathsJoin(c, run, path);
  }

  /** The micro-steps of a mint, lifted to the whole system. */
  lemma MintPath(c: Config, s: Sys, r: Resolved, n: Word, trail: seq<Disk>) returns (path: seq<Sys>)
    requires s.pc == Reading(r) && s.disk.nonce == None && !r.committed
    requires |trail| > 1 && trail[0] == s.disk && MintRun(n, trail)
    ensures IsPath(c, path) && path[0] == s
    ensures path[|path| - 1] == s.(pc := Minting(r, n), disk := trail[|trail| - 1])
  {
    assert MintStep(n, trail[0], trail[0 + 1]);
    var first := s.(pc := Minting(r, n), disk := trail[1]);
    path := [s];
    PathExtends(c, path, MintCreate(n), first);
    path := path + [first];
    for k := 1 to |trail| - 1
      invariant IsPath(c, path) && path[0] == s
      invariant path[|path| - 1] == s.(pc := Minting(r, n), disk := trail[k]) && trail[k].nonce.Some?
    {
      assert MintStep(n, trail[k], trail[k + 1]);
      var next := s.(pc := Minting(r, n), disk := trail[k + 1]);
      PathExtends(c, path, MintGrow(trail[k + 1].nonce.value), next);
      path := path + [next];
    }
  }

  /** The micro-steps of a save, lifted to the whole system. */
  lemma SavePath(c: Config, s: Sys, art: Artifacts, trail: seq<SavePoint>) returns (path: seq<Sys>)
    requires s.pc == Saving(art, Removing)
    requires |trail| > 0 && trail[0] == SavePoint(Removing, s.disk) && SaveRun(art.proof, trail)
    ensures IsPath(c, path) && path[0] == s
    ensures path[|path| - 1] == s.(pc := Saving(art, trail[|trail| - 1].phase), disk := trail[|trail| - 1].disk)
  {
    path := [s];
    for k := 0 to |trail| - 1
      invariant IsPath(c, path) && path[0] == s
      invariant path[|path| - 1] == s.(pc := Saving(art, trail[k].phase), disk := trail[k].disk)
    {
      assert SaveStep(art.proof, trail[k], trail[k + 1]);
      var next := s.(pc := Saving(art, trail[k + 1].phase), disk := trail[k + 1].disk);
      PathExtends(c, path, SaveMicro(trail[k + 1]), next);
      path := path + [next];
    }
  }

  /** A mint that reported success wrote something, and nothing but the nonce. */
  lemma MintedInSteps(before: Disk, n: Word, trail: seq<Disk>)
    requires |trail| > 0 && trail[0] == before && before.nonce == None && trail[|trail| - 1].nonce.Some?
    requires MintRun(n, trail)
    ensures |trail| > 1 && trail[|trail| - 1] == before.(nonce := trail[|trail| - 1].nonce)
  {
    MintKeepsNonce(n, trail, |trail| - 1);
  }

  class JobExecutor {
    const config: Config
    const store: Store
    var progress: Progress
    /** Requests the signer has accepted, oldest first. */
    var emitted: seq<SignatureRequest>

    /** A (re)started process: memory is fresh, the store is whatever the disk holds. */
    constructor (config: Config, store: Store)
      ensures this.config == config && this.store == store
      ensures progress == FRESH && emitted == []
    {
      this.config := config;
      this.store := store;
      progress := FRESH;
      emitted := [];
    }

    /** This process's part of the system state; `earlier` are the requests previous processes emitted. */
    ghost function State(pc: Pc, chain: Chain, earlier: set<SignatureRequest>): Sys
      reads this, store
    {
      Sys(progress, pc, DiskOf(store.dir, config.jobId), chain, earlier + set r | r in emitted)
    }

    /** The nonce for this step: the stored one, or a new one if none was ever stored. */
    method ResolveNonce(r: Resolved, o: Oracle, ghost chain: Chain, ghost earlier: set<SignatureRequest>)
      returns (seed: Option<Word>, ghost stop: Pc, ghost path: seq<Sys>)
      modifies store
      ensures IsPath(config, path) && path[0] == old(State(Reading(r), chain, earlier))
      ensures path[|path| - 1] == State(stop, chain, earlier)
      ensures if seed.Some? then stop == Seeded(r, seed.value) else !stop.Saving?
      ensures seed == NonceFor(old(DiskOf(store.dir, config.jobId)), r, o)
      ensures seed.Some? ==>
                DiskOf(store.dir, config.jobId) == old(DiskOf(store.dir, config.jobId)).(nonce := Some(seed.value))
      ensures var disk := old(DiskOf(store.dir, config.jobId));
              DiskOf(store.dir, config.jobId) == disk.(nonce := NonceAfter(disk, r, o))
      ensures r.committed && old(NonceFile(config.jobId) !in store.dir) ==> store.dir == old(store.dir)
    {
      var job := config.jobId;
      stop := Reading(r);
      path := [State(stop, chain, earlier)];
      var loaded := store.Load(job, o.nonceReadable);
      if loaded.Err? {
        return None, stop, path;
      }
      if loaded.value.Some? {
        seed := loaded.value;
        stop := Seeded(r, seed.value);
        PathExtends(config, path, NonceLoad(seed.value), State(stop, chain, earlier));
        path := path + [State(stop, chain, earlier)];
        return;
      }
      if r.committed || o.minted.None? {
        return None, stop, path;
      }
      var n := o.minted.value;
      ghost var before := State(stop, chain, earlier);
      ghost var trail;
      var minted;
      minted, trail := store.Mint(job, n, o.mintFault);
      MintKeepsNonce(n, trail, |trail| - 1);
      if |trail| > 1 {
        stop := Minting(r, n);
        path := MintPath(config, before, r, n, trail);
        assert path[|path| - 1] == State(stop, chain, earlier);
      }
      if minted.Err? {
        return None, stop, path;
      }
      MintedInSteps(before.disk, n, trail);
      stop := Seeded(r, n);
      PathExtends(config, path, MintDone, State(stop, chain, earlier));
      path := path + [State(stop, chain, earlier)];
      seed := Some(n);
    }

    /** Reload artifacts a previous process saved; refuse to continue when a commitment is on chain
        and they are gone. */
    method ResolveArtifacts(r: Resolved, seed: Word, o: Oracle,
                            ghost chain: Chain, ghost earlier: set<SignatureRequest>)
      returns (ok: bool, ghost step: Step)
      modifies this`progress
      ensures ok ==>
                Next(config, step, old(State(Seeded(r, seed), chain, earlier)), State(Ready(r, seed), chain, earlier))
      ensures var p := Restored(config.keccak, old(progress), DiskOf(store.dir, config.jobId), r, seed, o);
              (ok <==> p.Some?) && progress == if ok then p.value else old(progress)
    {
      if progress.artifacts.Some? {
        return true, ArtifactsHeld;
      }
      var loaded := store.LoadArtifactsCapped(config.keccak, config.jobId, MAX_ARTIFACTS,
                                              o.artifactsReadable, o.nonceReadableAgain);
      LoaderFinds(config.keccak, DiskOf(store.dir, config.jobId), o, loaded);
      if loaded.Err? {
        return false, Return;
      }
      if loaded.value.Some? {
        var art := loaded.value.value;
        progress := progress.(nonce := Some(seed), artifacts := Some(art));
        return true, ArtifactsLoad(art);
      }
      if r.committed && r.job.state == Executing {
        return false, Return;
      }
      ok, step := true, ArtifactsAbsent;
    }

    /** The off-chain input inference needs, accepted only if the chain binds it. */
    method ResolveInput(r: Resolved, o: Oracle) returns (input: Result<Bytes, StepOutcome>)
      ensures input == InputFor(config.keccak, r, progress, o)
      ensures NeedsInput(r, progress) ==>
                forall b :: input == Ok(b) <==> o.input == Some(Some(b)) && r.job.inputHash == Some(config.keccak(b))
    {
      if r.job.state != Executing || progress.artifacts.Some? {
        return Ok([]);
      }
      if o.input.None? {
        return Err(Error);
      }
      if o.input.value.None? {
        return Err(AwaitingInput);
      }
      var bytes := o.input.value.value;
      if r.job.inputHash != Some(config.keccak(bytes)) {
        return Err(Error);
      }
      input := Ok(bytes);
    }

    /** What this process keeps between steps. */
    ghost function Keeping(): Kept
      reads this, store
    {
      var disk := DiskOf(store.dir, config.jobId);
      Kept(progress, disk.nonce, disk.artifacts)
    }

    /** `drive_job`: plan on the fresh read, then emit the one write or run inference. */
    method DriveJob(r: Resolved, seed: Word, input: Bytes, o: Oracle) returns (outcome: StepOutcome)
      modifies this
      ensures outcome == OutcomeOf(Plan(PlanFor(config, r, old(progress))), |input|, o)
      ensures outcome.Signed? ==>
                && progress == old(progress) && |emitted| == |old(emitted)| + 1
                && emitted[..|old(emitted)|] == old(emitted)
                && emitted[|old(emitted)|].intent == outcome.intent
                && Plan(PlanFor(config, r, old(progress))) == Sign(emitted[|old(emitted)|])
      ensures !outcome.Signed? ==> emitted == old(emitted)
      ensures outcome == RanInference ==>
                && Plan(PlanFor(config, r, old(progress))) == RunInference && o.inference.Some?
                && |input| <= o.maxInput
                && progress == Inferred(config.keccak, old(progress), seed, o.inference.value)
      ensures outcome != RanInference ==> progress == old(progress)
    {
      var action := PlanNext(PlanFor(config, r, progress));
      match action {
        case RunInference =>
          if |input| > o.maxInput { return InfeasibleInput; }
          if !o.provisioned { return Error; }
          if o.inference.None? { return Error; }
          var nonce := if progress.nonce.Some? then progress.nonce.value else seed;
          var art := Build(config.keccak, o.inference.value, nonce);
          progress := progress.(nonce := Some(nonce), artifacts := Some(art));
          return RanInference;
        case Sign(req) =>
          if !o.signerAccepts { return Error; }
          emitted := emitted + [req];
          return Signed(req.intent);
        case Done => return JobDone;
        case Idle => return NotOurTurn;
        case Wait(until) => return Waiting(until);
        case Abort(why) => return Aborted(why);
      }
    }

    /** Persist the artifacts of a finished inference; forget them if that fails. */
    method Persist(o: Oracle, ghost chain: Chain, ghost earlier: set<SignatureRequest>)
      returns (saved: bool, ghost path: seq<Sys>)
      requires progress.artifacts.Some?
      modifies this`progress, store
      ensures IsPath(config, path)
      ensures path[0] == old(State(Saving(progress.artifacts.value, Removing), chain, earlier))
      ensures path[|path| - 1] == State(AtRest, chain, earlier)
      ensures saved <==> Saves(o)
      ensures saved ==>
                && progress == old(progress)
                && FileIn(store.dir, ArtifactsFile(config.jobId)) == Some(progress.artifacts.value.proof)
      ensures !saved ==> progress == old(progress).(artifacts := None)
      ensures Keeping().nonce == old(Keeping()).nonce
      ensures Keeping().artifacts == if Saves(o) || o.saveFault == DirSyncFails
                                     then Some(old(progress).artifacts.value.proof) else old(Keeping()).artifacts
    {
      var art := progress.artifacts.value;
      ghost var before := State(Saving(art, Removing), chain, earlier);
      ghost var trail;
      var r;
      r, trail := store.SaveArtifacts(config.jobId, art, o.saveFault);
      path := SavePath(config, before, art, trail);
      ghost var last := trail[|trail| - 1];
      assert path[|path| - 1] == State(Saving(art, last.phase), chain, earlier);
      SaveNeverTears(art.proof, trail, |trail| - 1);
      if r.Err? {
        progress := progress.(artifacts := None);
        PathExtends(config, path, Return, State(AtRest, chain, earlier));
        path := path + [State(AtRest, chain, earlier)];
        return false, path;
      }
      PathExtends(config, path, SaveDone, State(AtRest, chain, earlier));
      path := path + [State(AtRest, chain, earlier)];
      saved := true;
    }

    /** Artifacts and input, once the nonce is known. */
    method Settle(r: Resolved, seed: Word, o: Oracle, ghost chain: Chain, ghost earlier: set<SignatureRequest>)
      returns (input: Result<Bytes, StepOutcome>, ghost path: seq<Sys>)
      modifies this`progress
      ensures IsPath(config, path) && path[0] == old(State(Seeded(r, seed), chain, earlier))
      ensures path[|path| - 1] == State(if input.Ok? then Ready(r, seed) else AtRest, chain, earlier)
      ensures match Restored(config.keccak, old(progress), DiskOf(store.dir, config.jobId), r, seed, o)
              case None => input == Err(Error) && progress == old(progress)
              case Some(q) => progress == q && input == InputFor(config.keccak, r, q, o)
    {
      path := [State(Seeded(r, seed), chain, earlier)];
      ghost var step;
      var ok;
      ok, step := ResolveArtifacts(r, seed, o, chain, earlier);
      input := Err(Error);
      if ok {
        PathExtends(config, path, step, State(Ready(r, seed), chain, earlier));
        path := path + [State(Ready(r, seed), chain, earlier)];
        input := ResolveInput(r, o);
      }
      if input.Err? {
        PathExtends(config, path, Return, State(AtRest, chain, earlier));
        path := path + [State(AtRest, chain, earlier)];
      }
    }

    /** The first half of a step: record the chain's view, then nonce, artifacts and input. */
    method Prepare(r: Resolved, o: Oracle, ghost chain: Chain, ghost earlier: set<SignatureRequest>)
      returns (seed: Option<Word>, input: Result<Bytes, StepOutcome>, ghost path: seq<Sys>)
      requires Truthful(config, r, chain) && r.job.assignedProvider == config.me
      modifies this`progress, store
      ensures IsPath(config, path) && path[0] == old(State(AtRest, chain, earlier))
      ensures path[|path| - 1] ==
                State(if seed.Some? && input.Ok? then Ready(r, seed.value) else AtRest, chain, earlier)
      ensures PreparedAs(config, r, o, old(progress), old(DiskOf(store.dir, config.jobId)), seed, input, progress)
      ensures input.Ok? ==> seed.Some?
      ensures var disk := old(DiskOf(store.dir, config.jobId));
              DiskOf(store.dir, config.jobId) == disk.(nonce := NonceAfter(disk, r, o))
      ensures r.committed && old(NonceFile(config.jobId) !in store.dir) ==> store.dir == old(store.dir)
    {
      path := [State(AtRest, chain, earlier)];
      progress := progress.(committed := r.committed);
      PathExtends(config, path, Resolve(r), State(Reading(r), chain, earlier));
      path := path + [State(Reading(r), chain, earlier)];
      ghost var stop, part;
      seed, stop, part := ResolveNonce(r, o, chain, earlier);
      PathsJoin(config, path, part);
      path := path + part[1..];
      if seed.None? {
        PathExtends(config, path, Return, State(AtRest, chain, earlier));
        path := path + [State(AtRest, chain, earlier)];
        return seed, Err(Error), path;
      }
      input, part := Settle(r, seed.value, o, chain, earlier);
      PathsJoin(config, path, part);
      path := path + part[1..];
    }

    /** The second half: act on the plan and persist what inference produced. */
    method Act(r: Resolved, seed: Word, input: Bytes, o: Oracle,
               ghost chain: Chain, ghost earlier: set<SignatureRequest>)
      returns (outcome: StepOutcome, ghost path: seq<Sys>)
      modifies this, store
      ensures IsPath(config, path) && path[0] == old(State(Ready(r, seed), chain, earlier))
      ensures path[|path| - 1] == State(AtRest, chain, earlier)
      ensures outcome == Settled(OutcomeOf(Plan(PlanFor(config, r, old(progress))), |input|, o), o)
      ensures Keeping() == KeptByAction(config.keccak, Plan(PlanFor(config, r, old(progress))), old(progress), seed,
                                        |input|, o, old(Keeping()).nonce, old(Keeping()).artifacts)
      ensures outcome.Signed? ==>
                && |emitted| == |old(emitted)| + 1 && emitted[..|old(emitted)|] == old(emitted)
                && progress == old(progress)
                && Plan(PlanFor(config, r, old(progress))) == Sign(emitted[|old(emitted)|])
      ensures !outcome.Signed? ==> emitted == old(emitted)
      ensures outcome == RanInference ==>
                && Plan(PlanFor(config, r, old(progress))) == RunInference && |input| <= o.maxInput
                && progress.artifacts.Some?
                && FileIn(store.dir, ArtifactsFile(config.jobId)) == Some(progress.artifacts.value.proof)
    {
      ghost var ready := State(Ready(r, seed), chain, earlier);
      path := [ready];
      outcome := DriveJob(r, seed, input, o);
      if outcome == RanInference {
        ghost var saving := State(Saving(progress.artifacts.value, Removing), chain, earlier);
        PathExtends(config, path, Infer(o.inference.value), saving);
        path := path + [saving];
        ghost var part;
        var saved;
        saved, part := Persist(o, chain, earlier);
        PathsJoin(config, path, part);
        path := path + part[1..];
        if !saved {
          outcome := Error;
        }
      } else if outcome.Signed? {
        ghost var req := emitted[|emitted| - 1];
        assert emitted == old(emitted) + [req];
        assert State(AtRest, chain, earlier).emitted == ready.emitted + {req};
        PathExtends(config, path, Emit(req), State(AtRest, chain, earlier));
        path := path + [State(AtRest, chain, earlier)];
      } else {
        PathExtends(config, path, Return, State(AtRest, chain, earlier));
        path := path + [State(AtRest, chain, earlier)];
      }
    }

    /** `JobExecutor::step`. Its every intermediate state is on `path`, and `path` is a path of the
        transition system from the state before to the state after. */
    method DoStep(o: Oracle, ghost chain: Chain, ghost earlier: set<SignatureRequest>)
      returns (outcome: StepOutcome, ghost path: seq<Sys>)
      requires o.resolved.Some? ==> Truthful(config, o.resolved.value, chain)
      modifies this, store
      ensures IsPath(config, path)
      ensures path[0] == old(State(AtRest, chain, earlier))
      ensures path[|path| - 1] == State(AtRest, chain, earlier)
      ensures outcome.Signed? ==>
                && |emitted| == |old(emitted)| + 1 && emitted[..|old(emitted)|] == old(emitted)
                && o.resolved.Some?
                && Plan(PlanFor(config, o.resolved.value, progress)) == Sign(emitted[|old(emitted)|])
      ensures !outcome.Signed? ==> emitted == old(emitted)
      ensures outcome == Decide(config, old(progress), old(DiskOf(store.dir, config.jobId)), o)
      ensures Keeping() == KeptAfter(config, old(progress), old(DiskOf(store.dir, config.jobId)), o)
      // Inference only ever runs on the input the chain binds, and its artifacts are on disk.
      ensures outcome == RanInference ==>
                && o.resolved.Some? && o.input.Some? && o.input.value.Some?
                && |o.input.value.value| <= o.maxInput
                && o.resolved.value.job.inputHash == Some(config.keccak(o.input.value.value))
                && progress.artifacts.Some?
                && FileIn(store.dir, ArtifactsFile(config.jobId)) == Some(progress.artifacts.value.proof)
      // A commitment on chain without a stored nonce is never answered with a fresh one.
      ensures o.resolved.Some? && o.resolved.value.committed && o.resolved.value.job.assignedProvider == config.me
              && old(NonceFile(config.jobId) !in store.dir) ==>
                outcome == Error && emitted == old(emitted) && store.dir == old(store.dir)
    {
      path := [State(AtRest, chain, earlier)];
      if o.resolved.None? {
        return Error, path;
      }
      var r := o.resolved.value;
      if r.job.assignedProvider != config.me {
        return NotOurTurn, path;
      }
      var seed, input;
      seed, input, path := Prepare(r, o, chain, earlier);
      DecidedByHalves(config, r, o, old(progress), old(DiskOf(store.dir, config.jobId)), seed, input, progress);
      KeptByHalves(config, r, o, old(progress), old(DiskOf(store.dir, config.jobId)), seed, input, progress);
      if input.Err? {
        return input.error, path;
      }
      ghost var part;
      outcome, part := Act(r, seed.value, input.value, o, chain, earlier);
      PathsJoin(config, path, part);
      path := path + part[1..];
    }
  }

  /** Kill the process at any point of a step: both what it leaves behind and what a restart finds
      are safe, whatever run led to that step. */
  lemma KilledAnywhereIsSafe(c: Config, run: seq<Sys>, path: seq<Sys>, k: nat)
    requires IsRun(c, run) && IsPath(c, path) && run[|run| - 1] == path[0] && k < |path|
    ensures Safe(c, path[k])
    ensures Safe(c, path[k].(pc := AtRest, progress := FRESH))
    ensures IsRun(c, run + path[1..k + 1] + [path[k].(pc := AtRest, progress := FRESH)])
  {
    var prefix, restarted := path[..k + 1], path[k].(pc := AtRest, progress := FRESH);
    assert IsPath(c, prefix) by {
      forall i | 0 <= i < k
        ensures Moves(c, prefix[i], prefix[i + 1])
      {
        assert Moves(c, path[i], path[i + 1]);
      }
    }
    assert prefix[1..] == path[1..k + 1];
    PathsJoin(c, run, prefix);
    var joined := run + prefix[1..];
    PathExtends(c, joined, Crash, restarted);
    CommitRevealSafety(c, joined + [restarted]);
    assert (joined + [restarted])[|joined| - 1] == path[k];
    assert Safe(c, (joined + [restarted])[|joined|]);
  }
}
