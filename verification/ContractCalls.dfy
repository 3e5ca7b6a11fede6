/** What a contract reads out of calldata: for every write of the agent, a reader written from the Solidity
    signature alone, with its pinned selector, its types and its arguments by position. */
module ContractCalls {
  import opened Prelude
  import opened AbiSpec
  import opened Calldata

  /** `n` arguments of one word each, then `rest`. */
  function WordTypes(n: nat, rest: Types): Types {
    if n == 0 then rest else Cons(TWord, WordTypes(n - 1, rest))
  }

  ghost function Read(calldata: Bytes, selector: Bytes, types: Types): Option<Args> {
    if |calldata| < 4 || calldata[..4] != selector then None else Decode(types, calldata[4..])
  }

  /** The argument at a position. */
  function At(args: Args, k: nat): AbiValue {
    match args
    case Nil => VWords([])
    case Cons(v, rest) => if k == 0 then v else At(rest, k - 1)
  }

  function WordArg(args: Args, k: nat): Word {
    if At(args, k).VWord? then At(args, k).w else Zeros(32)
  }

  function NumberArg(args: Args, k: nat): nat {
    Number(WordArg(args, k))
  }

  function BytesArg(args: Args, k: nat): Bytes {
    if At(args, k).VBytes? then At(args, k).b else []
  }

  function WordsArg(args: Args, k: nat): seq<Word> {
    if At(args, k).VWords? then At(args, k).ws else []
  }

  // ---- the marketplace ----

  /** `startExecution(uint256 jobId)` */
  ghost function ReadStartExecution(calldata: Bytes): Option<nat> {
    match Read(calldata, [0xc7, 0x8e, 0xc1, 0x8e], WordTypes(1, Nil))
    case Some(args) => Some(NumberArg(args, 0))
    case None => None
  }

  /** `completeJob(uint256 jobId)` */
  ghost function ReadCompleteJob(calldata: Bytes): Option<nat> {
    match Read(calldata, [0xa1, 0xc0, 0xd3, 0x2f], WordTypes(1, Nil))
    case Some(args) => Some(NumberArg(args, 0))
    case None => None
  }

  /** `assignBestBid(uint256 jobId)` */
  ghost function ReadAssignBestBid(calldata: Bytes): Option<nat> {
    match Read(calldata, [0x72, 0x74, 0x95, 0xa4], WordTypes(1, Nil))
    case Some(args) => Some(NumberArg(args, 0))
    case None => None
  }

  datatype CommitmentCall = CommitmentCall(jobId: nat, commitment: Word)

  /** `submitCommitment(uint256 jobId, bytes32 commitment)` */
  ghost function ReadSubmitCommitment(calldata: Bytes): Option<CommitmentCall> {
    match Read(calldata, [0xe6, 0xa3, 0xd9, 0xdc], WordTypes(2, Nil))
    case Some(args) => Some(CommitmentCall(NumberArg(args, 0), WordArg(args, 1)))
    case None => None
  }

  datatype ResultCall = ResultCall(jobId: nat, outputHash: Bytes, proof: Bytes)

  /** `submitResult(uint256 jobId, bytes outputHash, bytes proof)` */
  ghost function ReadSubmitResult(calldata: Bytes): Option<ResultCall> {
    match Read(calldata, [0xba, 0xa2, 0xc0, 0x78], WordTypes(1, Cons(TBytes, Cons(TBytes, Nil))))
    case Some(args) => Some(ResultCall(NumberArg(args, 0), BytesArg(args, 1), BytesArg(args, 2)))
    case None => None
  }

  datatype BidCall = BidCall(jobId: nat, price: nat, estimatedLatency: nat)

  /** `bidOnJob(uint256 jobId, uint256 price, uint256 estimatedLatency)` */
  ghost function ReadBidOnJob(calldata: Bytes): Option<BidCall> {
    match Read(calldata, [0x18, 0x36, 0x0f, 0xc2], WordTypes(3, Nil))
    case Some(args) => Some(BidCall(NumberArg(args, 0), NumberArg(args, 1), NumberArg(args, 2)))
    case None => None
  }

  /** `registerProvider(bytes32[] supportedModels)` */
  ghost function ReadRegisterProvider(calldata: Bytes): Option<seq<Word>> {
    match Read(calldata, [0x05, 0x89, 0xcd, 0x44], Cons(TWords, Nil))
    case Some(args) => Some(WordsArg(args, 0))
    case None => None
  }

  // ---- calls without arguments ----

  /** `claimRewards()` */
  ghost predicate IsClaimRewards(calldata: Bytes) {
    calldata == [0x37, 0x25, 0x00, 0xab]
  }

  /** `heartbeat()` */
  ghost predicate IsHeartbeat(calldata: Bytes) {
    calldata == [0x3d, 0xef, 0xb9, 0x62]
  }

  /** `registerPinner()` */
  ghost predicate IsRegisterPinner(calldata: Bytes) {
    calldata == [0xc0, 0xd2, 0xc4, 0x28]
  }

  // ---- the pinning incentives ----

  datatype SealCall = SealCall(cid: Word, sector: nat, replicaId: Word, epoch: nat,
                               commD: Word, commR: Word, commC: Word, porepProof: Bytes)

  /** `sealCommit(bytes32 cid, uint256 sector, bytes32 replicaID, uint256 epoch, bytes32 commD,
      bytes32 commR, bytes32 commC, bytes porepProof)` */
  ghost function ReadSealCommit(calldata: Bytes): Option<SealCall> {
    match Read(calldata, [0x51, 0xa0, 0xed, 0x88], WordTypes(7, Cons(TBytes, Nil)))
    case Some(args) =>
      Some(SealCall(WordArg(args, 0), NumberArg(args, 1), WordArg(args, 2), NumberArg(args, 3),
                    WordArg(args, 4), WordArg(args, 5), WordArg(args, 6), BytesArg(args, 7)))
    case None => None
  }

  datatype PoStCall = PoStCall(cid: Word, sector: nat, commR: Word, commC: Word, nonce: Word, postProof: Bytes)

  /** `submitPoSt(bytes32 cid, uint256 sector, bytes32 commR, bytes32 commC, uint256 challengeNonce,
      bytes postProof)` */
  ghost function ReadSubmitPoSt(calldata: Bytes): Option<PoStCall> {
    match Read(calldata, [0x43, 0xf6, 0xb2, 0x01], WordTypes(5, Cons(TBytes, Nil)))
    case Some(args) =>
      Some(PoStCall(WordArg(args, 0), NumberArg(args, 1), WordArg(args, 2), WordArg(args, 3), WordArg(args, 4),
                    BytesArg(args, 5)))
    case None => None
  }

  datatype PinCall = PinCall(cid: Word, sector: nat)

  ghost function ReadPinCall(calldata: Bytes, selector: Bytes): Option<PinCall> {
    match Read(calldata, selector, WordTypes(2, Nil))
    case Some(args) => Some(PinCall(WordArg(args, 0), NumberArg(args, 1)))
    case None => None
  }

  /** `challenge(bytes32 cid, uint256 sector)` */
  ghost function ReadChallenge(calldata: Bytes): Option<PinCall> {
    ReadPinCall(calldata, [0xe2, 0x08, 0x3c, 0x18])
  }

  /** `claim(bytes32 cid, uint256 sector)` */
  ghost function ReadClaim(calldata: Bytes): Option<PinCall> {
    ReadPinCall(calldata, [0x63, 0xf4, 0x49, 0x68])
  }

  /** `returnBond(bytes32 cid, uint256 sector)` */
  ghost function ReadReturnBond(calldata: Bytes): Option<PinCall> {
    ReadPinCall(calldata, [0x3a, 0xc9, 0xdf, 0xd3])
  }

  // ---- every write is read back ----

  lemma {:induction false} PrependedTypes(ws: seq<Word>, rest: Args)
    ensures TypesOf(Prepend(ws, rest)) == WordTypes(|ws|, TypesOf(rest))
  {
    if ws != [] {
      PrependedTypes(ws[1..], rest);
    }
  }

  lemma {:induction false} PrependedWord(ws: seq<Word>, rest: Args, k: nat)
    requires k < |ws|
    ensures At(Prepend(ws, rest), k) == VWord(ws[k])
  {
    if k > 0 {
      PrependedWord(ws[1..], rest, k - 1);
    }
  }

  lemma {:induction false} AfterPrepended(ws: seq<Word>, rest: Args, k: nat)
    ensures At(Prepend(ws, rest), |ws| + k) == At(rest, k)
  {
    if ws != [] {
      AfterPrepended(ws[1..], rest, k);
    }
  }

  /** Reading a write by its own selector and types gives its words and then its dynamic arguments. */
  lemma ReadsBack(w: Write, selector: Bytes, ws: seq<Word>, dyn: Args) returns (args: Args)
    requires selector == Selector(w) && ws == StaticWords(w) && dyn == Dynamic(w)
    ensures Read(CalldataOf(w), selector, WordTypes(|ws|, TypesOf(dyn))) == Some(args)
    ensures forall k :: 0 <= k < |ws| ==> WordArg(args, k) == ws[k]
    ensures At(args, |ws|) == At(dyn, 0) && At(args, |ws| + 1) == At(dyn, 1)
  {
    args := Prepend(ws, dyn);
    CalldataDecodes(w);
    PrependedTypes(ws, dyn);
    forall k | 0 <= k < |ws|
      ensures WordArg(args, k) == ws[k]
    {
      PrependedWord(ws, dyn, k);
    }
    AfterPrepended(ws, dyn, 0);
    AfterPrepended(ws, dyn, 1);
  }

  lemma JobCallsRead(id: u128)
    ensures ReadStartExecution(CalldataOf(StartExecution(id))) == Some(id)
    ensures ReadCompleteJob(CalldataOf(CompleteJob(id))) == Some(id)
    ensures ReadAssignBestBid(CalldataOf(AssignBestBid(id))) == Some(id)
  {
    NumberOfWord(id);
    var _ := ReadsBack(StartExecution(id), [0xc7, 0x8e, 0xc1, 0x8e], [WordOf(id)], Nil);
    var _ := ReadsBack(CompleteJob(id), [0xa1, 0xc0, 0xd3, 0x2f], [WordOf(id)], Nil);
    var _ := ReadsBack(AssignBestBid(id), [0x72, 0x74, 0x95, 0xa4], [WordOf(id)], Nil);
  }

  lemma CommitmentReads(id: u128, c: Word)
    ensures ReadSubmitCommitment(CalldataOf(SubmitCommitment(id, c))) == Some(CommitmentCall(id, c))
  {
    NumberOfWord(id);
    var _ := ReadsBack(SubmitCommitment(id, c), [0xe6, 0xa3, 0xd9, 0xdc], [WordOf(id), c], Nil);
  }

  lemma ResultReads(id: u128, h: Vec, p: Vec)
    ensures ReadSubmitResult(CalldataOf(SubmitResult(id, h, p))) == Some(ResultCall(id, h, p))
  {
    NumberOfWord(id);
    var second := Cons(VBytes(p), Nil);
    var dyn := Cons(VBytes(h), second);
    assert TypesOf(second) == Cons(TBytes, Nil);
    assert At(second, 0) == VBytes(p);
    var _ := ReadsBack(SubmitResult(id, h, p), [0xba, 0xa2, 0xc0, 0x78], [WordOf(id)], dyn);
  }

  lemma BidReads(id: u128, price: u128, latency: u128)
    ensures ReadBidOnJob(CalldataOf(BidOnJob(id, price, latency))) == Some(BidCall(id, price, latency))
  {
    NumberOfWord(id);
    NumberOfWord(price);
    NumberOfWord(latency);
    var _ := ReadsBack(BidOnJob(id, price, latency), [0x18, 0x36, 0x0f, 0xc2],
                       [WordOf(id), WordOf(price), WordOf(latency)], Nil);
  }

  lemma ProviderReads(models: ModelList)
    ensures ReadRegisterProvider(CalldataOf(RegisterProvider(models))) == Some(models)
  {
    var _ := ReadsBack(RegisterProvider(models), [0x05, 0x89, 0xcd, 0x44], [], Cons(VWords(models), Nil));
  }

  lemma BareCallsRead()
    ensures IsClaimRewards(CalldataOf(ClaimRewards)) && IsHeartbeat(CalldataOf(Heartbeat))
    ensures IsRegisterPinner(CalldataOf(RegisterPinner))
  {
    StaticCalldata(ClaimRewards);
    StaticCalldata(Heartbeat);
    StaticCalldata(RegisterPinner);
  }

  lemma SealReads(cid: Word, sector: u128, replica: Word, epoch: u128, d: Word, r: Word, c: Word, proof: Vec)
    ensures ReadSealCommit(CalldataOf(SealCommit(cid, sector, replica, epoch, d, r, c, proof)))
         == Some(SealCall(cid, sector, replica, epoch, d, r, c, proof))
  {
    NumberOfWord(sector);
    NumberOfWord(epoch);
    var _ := ReadsBack(SealCommit(cid, sector, replica, epoch, d, r, c, proof), [0x51, 0xa0, 0xed, 0x88],
                       [cid, WordOf(sector), replica, WordOf(epoch), d, r, c], Cons(VBytes(proof), Nil));
  }

  lemma PoStReads(cid: Word, sector: u128, r: Word, c: Word, nonce: Word, proof: Vec)
    ensures ReadSubmitPoSt(CalldataOf(SubmitPoSt(cid, sector, r, c, nonce, proof)))
         == Some(PoStCall(cid, sector, r, c, nonce, proof))
  {
    NumberOfWord(sector);
    var _ := ReadsBack(SubmitPoSt(cid, sector, r, c, nonce, proof), [0x43, 0xf6, 0xb2, 0x01],
                       [cid, WordOf(sector), r, c, nonce], Cons(VBytes(proof), Nil));
  }

  lemma PinCallsRead(cid: Word, sector: u128)
    ensures ReadChallenge(CalldataOf(Challenge(cid, sector))) == Some(PinCall(cid, sector))
    ensures ReadClaim(CalldataOf(Claim(cid, sector))) == Some(PinCall(cid, sector))
    ensures ReadReturnBond(CalldataOf(ReturnBond(cid, sector))) == Some(PinCall(cid, sector))
  {
    NumberOfWord(sector);
    var _ := ReadsBack(Challenge(cid, sector), [0xe2, 0x08, 0x3c, 0x18], [cid, WordOf(sector)], Nil);
    var _ := ReadsBack(Claim(cid, sector), [0x63, 0xf4, 0x49, 0x68], [cid, WordOf(sector)], Nil);
    var _ := ReadsBack(ReturnBond(cid, sector), [0x3a, 0xc9, 0xdf, 0xd3], [cid, WordOf(sector)], Nil);
  }

  /** No reader takes one write for another. */
  lemma ReadsOnlyItsOwn(w: Write)
    ensures ReadStartExecution(CalldataOf(w)).Some? ==> w.StartExecution?
    ensures ReadCompleteJob(CalldataOf(w)).Some? ==> w.CompleteJob?
    ensures ReadAssignBestBid(CalldataOf(w)).Some? ==> w.AssignBestBid?
    ensures ReadSubmitCommitment(CalldataOf(w)).Some? ==> w.SubmitCommitment?
    ensures ReadSubmitResult(CalldataOf(w)).Some? ==> w.SubmitResult?
    ensures ReadBidOnJob(CalldataOf(w)).Some? ==> w.BidOnJob?
    ensures ReadRegisterProvider(CalldataOf(w)).Some? ==> w.RegisterProvider?
    ensures ReadSealCommit(CalldataOf(w)).Some? ==> w.SealCommit?
    ensures ReadSubmitPoSt(CalldataOf(w)).Some? ==> w.SubmitPoSt?
    ensures ReadChallenge(CalldataOf(w)).Some? ==> w.Challenge?
    ensures ReadClaim(CalldataOf(w)).Some? ==> w.Claim?
    ensures ReadReturnBond(CalldataOf(w)).Some? ==> w.ReturnBond?
  {
    CalldataDecodes(w);
    var s := CalldataOf(w)[..4];
    assert s == Selector(w);
    FirstByte(w, s[0]);
  }

  /** The first byte of the selector already tells the fifteen writes apart. */
  lemma FirstByte(w: Write, b: byte)
    requires b == Selector(w)[0]
    ensures (b == 0xc7 ==> w.StartExecution?) && (b == 0xa1 ==> w.CompleteJob?) && (b == 0x72 ==> w.AssignBestBid?)
    ensures (b == 0xe6 ==> w.SubmitCommitment?) && (b == 0xba ==> w.SubmitResult?) && (b == 0x18 ==> w.BidOnJob?)
    ensures (b == 0x05 ==> w.RegisterProvider?) && (b == 0x51 ==> w.SealCommit?) && (b == 0x43 ==> w.SubmitPoSt?)
    ensures (b == 0xe2 ==> w.Challenge?) && (b == 0x63 ==> w.Claim?) && (b == 0x3a ==> w.ReturnBond?)
  {
  }
}
