/** The on-disk state that outlives a crash: one nonce file and one artifacts file per job, plus the
    temporary file an artifacts write goes through. Every single change a method makes to the
    directory is one of the micro-steps below, so a crash can be placed between any two of them. */
module NonceStore {
  import opened Prelude
  import opened Proof

  datatype FileName = NonceFile(job: u128) | ArtifactsFile(job: u128) | TempFile(job: u128)

  type Directory = map<FileName, Bytes>

  /** One job's files. */
  datatype Disk = Disk(nonce: Option<Bytes>, artifacts: Option<Bytes>, temp: Option<Bytes>)

  function FileIn(dir: Directory, name: FileName): Option<Bytes> {
    if name in dir then Some(dir[name]) else None
  }

  function DiskOf(dir: Directory, job: u128): Disk {
    Disk(FileIn(dir, NonceFile(job)), FileIn(dir, ArtifactsFile(job)), FileIn(dir, TempFile(job)))
  }

  /** The files of every other job are as they were. */
  ghost predicate OthersKept(before: Directory, after: Directory, job: u128) {
    forall n: FileName :: n.job != job ==> FileIn(before, n) == FileIn(after, n)
  }

  datatype IoError = Corrupt | AlreadyExists | NotReadable | WriteFailed

  /** How far a `create_new; write_all; sync_all` gets. */
  datatype WriteFault = Completes | CreateFails | WritesOnly(n: nat) | SyncFails

  /** Which call of `save_artifacts` fails. */
  datatype SaveFault = SaveOk | DirFails | RemoveFails | TempFails(how: WriteFault) | RenameFails | DirSyncFails

  /** `MAX_ARTIFACTS_BYTES` */
  const MAX_ARTIFACTS := 64 * 1024 * 1024

  // ---- micro-steps ----

  /** While a nonce is minted its file is created empty and then only grows towards the nonce. */
  ghost predicate MintStep(nonce: Word, a: Disk, b: Disk) {
    || (a.nonce == None && b == a.(nonce := Some([])))
    || (a.nonce.Some? && b.nonce.Some? && b == a.(nonce := b.nonce)
        && a.nonce.value <= b.nonce.value <= nonce)
  }

  datatype SavePhase = Removing | Creating | Writing | Renaming | Syncing

  datatype SavePoint = SavePoint(phase: SavePhase, disk: Disk)

  /** Replacing the artifacts file: drop a stale temp, create a new one, fill it, rename it over. */
  ghost predicate SaveStep(proof: Bytes, a: SavePoint, b: SavePoint) {
    match a.phase
    case Removing => b.phase == Creating && b.disk == a.disk.(temp := None)
    case Creating => a.disk.temp == None && b.phase == Writing && b.disk == a.disk.(temp := Some([]))
    case Writing =>
      && a.disk.temp.Some? && b.disk.temp.Some? && b.disk == a.disk.(temp := b.disk.temp)
      && a.disk.temp.value <= b.disk.temp.value <= proof
      && (b.phase == Writing || (b.phase == Renaming && b.disk.temp == Some(proof)))
    case Renaming => b.phase == Syncing && b.disk == a.disk.(artifacts := a.disk.temp, temp := None)
    case Syncing => false
  }

  ghost predicate SaveRun(proof: Bytes, run: seq<SavePoint>) {
    forall k :: 0 <= k < |run| - 1 ==> SaveStep(proof, run[k], run[k + 1])
  }

  ghost predicate MintRun(nonce: Word, run: seq<Disk>) {
    forall k :: 0 <= k < |run| - 1 ==> MintStep(nonce, run[k], run[k + 1])
  }

  lemma SaveRunExtends(proof: Bytes, run: seq<SavePoint>, p: SavePoint)
    requires |run| > 0 && SaveRun(proof, run) && SaveStep(proof, run[|run| - 1], p)
    ensures SaveRun(proof, run + [p])
  {
    forall k | 0 <= k < |run + [p]| - 1
      ensures SaveStep(proof, (run + [p])[k], (run + [p])[k + 1])
    {
      if k < |run| - 1 {
        assert SaveStep(proof, run[k], run[k + 1]);
      }
    }
  }

  // ---- loading ----

  /** `load`: the stored nonce; a file that is not 32 bytes is an error, never a fresh start. */
  function LoadedNonce(disk: Disk): Result<Option<Word>, IoError> {
    match disk.nonce
    case None => Ok(None)
    case Some(f) => if |f| == 32 then Ok(Some(f)) else Err(Corrupt)
  }

  /** The artifacts a job's files hold: present, within the cap, equal to what its own bytes rebuild,
      and built under the stored nonce. */
  ghost predicate Holds(keccak: Hash, disk: Disk, art: Artifacts, cap: nat) {
    && disk.artifacts.Some? && 64 <= |disk.artifacts.value| <= cap <= VEC_MAX
    && disk.artifacts.value == art.proof
    && disk.nonce == Some(art.proof[32..64])
    && art == FromProof(keccak, art.proof)
  }

  /** What a minting attempt leaves in the nonce file. */
  function MintedFile(n: Word, fault: WriteFault): Option<Bytes> {
    match fault
    case CreateFails => None
    case WritesOnly(k) => Some(if k <= 32 then n[..k] else n)
    case _ => Some(n)
  }

  class Store {
    var dir: Directory

    constructor ()
      ensures dir == map[]
    {
      dir := map[];
    }

    /** `NonceStore::load` */
    method Load(job: u128, readable: bool) returns (r: Result<Option<Word>, IoError>)
      ensures readable ==> r == LoadedNonce(DiskOf(dir, job))
      ensures !readable && NonceFile(job) in dir ==> r == Err(NotReadable)
      ensures NonceFile(job) !in dir ==> r == Ok(None)
    {
      if NonceFile(job) !in dir {
        return Ok(None);
      }
      if !readable {
        return Err(NotReadable);
      }
      var bytes := dir[NonceFile(job)];
      if |bytes| == 32 {
        return Ok(Some(bytes));
      }
      r := Err(Corrupt);
    }

    /** `NonceStore::mint`: `minted` is what the CSPRNG returned. Never touches an existing nonce. */
    method Mint(job: u128, minted: Word, fault: WriteFault)
      returns (r: Result<Word, IoError>, ghost trail: seq<Disk>)
      modifies this
      ensures |trail| > 0 && trail[0] == old(DiskOf(dir, job)) && trail[|trail| - 1] == DiskOf(dir, job)
      ensures MintRun(minted, trail)
      ensures OthersKept(old(dir), dir, job)
      ensures r.Ok? ==> r.value == minted && FileIn(dir, NonceFile(job)) == Some(minted)
      ensures old(NonceFile(job) in dir) ==> dir == old(dir) && r == Err(AlreadyExists)
      ensures r.Ok? <==> fault == Completes && old(NonceFile(job) !in dir)
      ensures old(NonceFile(job) !in dir) ==> FileIn(dir, NonceFile(job)) == MintedFile(minted, fault)
    {
      trail := [DiskOf(dir, job)];
      if NonceFile(job) in dir {
        return Err(AlreadyExists), trail;
      }
      if fault == CreateFails {
        return Err(WriteFailed), trail;
      }
      dir := dir[NonceFile(job) := []];
      trail := trail + [DiskOf(dir, job)];
      var written := if fault.WritesOnly? && fault.n <= 32 then minted[..fault.n] else minted;
      dir := dir[NonceFile(job) := written];
      trail := trail + [DiskOf(dir, job)];
      if fault != Completes {
        return Err(WriteFailed), trail;
      }
      r := Ok(minted);
    }

    /** `NonceStore::save_artifacts` */
    method SaveArtifacts(job: u128, art: Artifacts, fault: SaveFault)
      returns (r: Result<(), IoError>, ghost trail: seq<SavePoint>)
      modifies this
      ensures |trail| > 0 && trail[0] == SavePoint(Removing, old(DiskOf(dir, job)))
      ensures trail[|trail| - 1].disk == DiskOf(dir, job)
      ensures SaveRun(art.proof, trail)
      ensures OthersKept(old(dir), dir, job)
      ensures trail[|trail| - 1].phase == Syncing <==> r.Ok? || fault == DirSyncFails
      ensures r.Ok? <==> fault == SaveOk || fault == TempFails(Completes)
    {
      trail := [SavePoint(Removing, DiskOf(dir, job))];
      if fault == DirFails {
        return Err(WriteFailed), trail;
      }
      if fault == RemoveFails {
        return Err(WriteFailed), trail;
      }
      dir := dir - {TempFile(job)};
      SaveRunExtends(art.proof, trail, SavePoint(Creating, DiskOf(dir, job)));
      trail := trail + [SavePoint(Creating, DiskOf(dir, job))];
      if fault == TempFails(CreateFails) {
        return Err(WriteFailed), trail;
      }
      dir := dir[TempFile(job) := []];
      SaveRunExtends(art.proof, trail, SavePoint(Writing, DiskOf(dir, job)));
      trail := trail + [SavePoint(Writing, DiskOf(dir, job))];
      if fault.TempFails? && fault.how != Completes {
        var n := if fault.how.WritesOnly? then Min(fault.how.n, |art.proof|) else |art.proof|;
        dir := dir[TempFile(job) := art.proof[..n]];
        SaveRunExtends(art.proof, trail, SavePoint(Writing, DiskOf(dir, job)));
        trail := trail + [SavePoint(Writing, DiskOf(dir, job))];
        return Err(WriteFailed), trail;
      }
      dir := dir[TempFile(job) := art.proof];
      SaveRunExtends(art.proof, trail, SavePoint(Renaming, DiskOf(dir, job)));
      trail := trail + [SavePoint(Renaming, DiskOf(dir, job))];
      if fault == RenameFails {
        return Err(WriteFailed), trail;
      }
      dir := dir[ArtifactsFile(job) := dir[TempFile(job)]] - {TempFile(job)};
      SaveRunExtends(art.proof, trail, SavePoint(Syncing, DiskOf(dir, job)));
      trail := trail + [SavePoint(Syncing, DiskOf(dir, job))];
      if fault == DirSyncFails {
        return Err(WriteFailed), trail;
      }
      r := Ok(());
    }

    /** `load_artifacts_capped`: returns artifacts exactly when the files hold them, `None` exactly
        when there is no artifacts file, and an error otherwise. */
    method LoadArtifactsCapped(keccak: Hash, job: u128, cap: nat, readable: bool, nonceReadable: bool)
      returns (r: Result<Option<Artifacts>, IoError>)
      requires cap <= MAX_ARTIFACTS
      ensures forall art :: r == Ok(Some(art)) <==>
                readable && nonceReadable && Holds(keccak, DiskOf(dir, job), art, cap)
      ensures r == Ok(None) <==> ArtifactsFile(job) !in dir
    {
      if ArtifactsFile(job) !in dir {
        return Ok(None);
      }
      if !readable {
        return Err(NotReadable);
      }
      var file := dir[ArtifactsFile(job)];
      var proof := if |file| <= cap + 1 then file else file[..cap + 1];
      if |proof| > cap {
        return Err(Corrupt);
      }
      if |proof| < 64 {
        return Err(Corrupt);
      }
      var nonce: Word := proof[32..64];
      var rebuilt := Build(keccak, proof[64..], nonce);
      if rebuilt.proof != proof {
        return Err(Corrupt);
      }
      var stored := Load(job, nonceReadable);
      if stored.Ok? && stored.value == Some(nonce) {
        return Ok(Some(rebuilt));
      }
      r := Err(Corrupt);
    }
  }

  /** Saving artifacts built under the stored nonce and loading them gives them back, if and only if
      the proof is within the loader's cap: the writer has no such limit. */
  lemma LoadAfterSave(keccak: Hash, before: Disk, output: Output, nonce: Word)
    requires before.nonce == Some(nonce)
    ensures var art := Build(keccak, output, nonce);
            var after := before.(artifacts := Some(art.proof), temp := None);
            forall art' :: Holds(keccak, after, art', MAX_ARTIFACTS) <==>
                           art' == art && |output| + 64 <= 67_108_864
  {
    ParseBuilt(keccak, output, nonce);
    ProofLayout(keccak, output, nonce);
  }

  /** The final path is never torn: at every micro-step of a save it holds what it held before or the
      complete new proof, and it holds the new proof once the last phase is reached. */
  lemma {:induction false} SaveNeverTears(proof: Bytes, run: seq<SavePoint>, k: nat)
    requires SaveRun(proof, run) && k < |run| && run[0].phase == Removing
    ensures run[k].disk.nonce == run[0].disk.nonce
    ensures run[k].disk.artifacts == if run[k].phase == Syncing then Some(proof) else run[0].disk.artifacts
    ensures run[k].phase == Renaming ==> run[k].disk.temp == Some(proof)
  {
    if k > 0 {
      SaveNeverTears(proof, run, k - 1);
      assert SaveStep(proof, run[k - 1], run[k - 1 + 1]);
    }
  }

  /** A complete nonce is never changed by minting, and a partial one only ever extends towards the
      nonce being minted. */
  lemma {:induction false} MintKeepsNonce(nonce: Word, run: seq<Disk>, k: nat)
    requires MintRun(nonce, run) && k < |run|
    ensures run[k] == run[0].(nonce := run[k].nonce)
    ensures run[0].nonce.Some? && |run[0].nonce.value| >= 32 ==> run[k].nonce == run[0].nonce
    ensures k > 0 ==> run[k].nonce.Some? && run[k].nonce.value <= nonce
  {
    if k > 0 {
      MintKeepsNonce(nonce, run, k - 1);
      assert MintStep(nonce, run[k - 1], run[k - 1 + 1]);
      if run[k - 1].nonce.Some? && |run[k - 1].nonce.value| >= 32 {
        assert run[k].nonce.value == run[k - 1].nonce.value;
      }
    }
  }
}
