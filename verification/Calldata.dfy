/** Every write the agent asks a signing surface to broadcast, the calldata the Solidity ABI gives
    it, and why that calldata identifies the write: the relay queue compares writes by calldata. */
module Calldata {
  import opened Prelude
  import opened AbiSpec
  import opened Abi

  type ModelList = ms: seq<Word> | |ms| <= VEC_MAX

  datatype Write =
    | StartExecution(jobId: u128)
    | SubmitCommitment(jobId: u128, commitment: Word)
    | SubmitResult(jobId: u128, outputHash: Vec, proof: Vec)
    | CompleteJob(jobId: u128)
    | BidOnJob(jobId: u128, price: u128, latency: u128)
    | AssignBestBid(jobId: u128)
    | RegisterProvider(models: ModelList)
    | ClaimRewards
    | Heartbeat
    | RegisterPinner
    | SealCommit(cid: Word, sector: u128, replicaId: Word, epoch: u128,
                 commD: Word, commR: Word, commC: Word, porepProof: Vec)
    | Challenge(cid: Word, sector: u128)
    | SubmitPoSt(cid: Word, sector: u128, commR: Word, commC: Word, nonce: Word, postProof: Vec)
    | Claim(cid: Word, sector: u128)
    | ReturnBond(cid: Word, sector: u128)

  /** The pinned four-byte selectors. */
  function Selector(w: Write): (s: Bytes)
    ensures |s| == 4
  {
    match w
    case StartExecution(_) => [0xc7, 0x8e, 0xc1, 0x8e]
    case SubmitCommitment(_, _) => [0xe6, 0xa3, 0xd9, 0xdc]
    case SubmitResult(_, _, _) => [0xba, 0xa2, 0xc0, 0x78]
    case CompleteJob(_) => [0xa1, 0xc0, 0xd3, 0x2f]
    case BidOnJob(_, _, _) => [0x18, 0x36, 0x0f, 0xc2]
    case AssignBestBid(_) => [0x72, 0x74, 0x95, 0xa4]
    case RegisterProvider(_) => [0x05, 0x89, 0xcd, 0x44]
    case ClaimRewards => [0x37, 0x25, 0x00, 0xab]
    case Heartbeat => [0x3d, 0xef, 0xb9, 0x62]
    case RegisterPinner => [0xc0, 0xd2, 0xc4, 0x28]
    case SealCommit(_, _, _, _, _, _, _, _) => [0x51, 0xa0, 0xed, 0x88]
    case Challenge(_, _) => [0xe2, 0x08, 0x3c, 0x18]
    case SubmitPoSt(_, _, _, _, _, _) => [0x43, 0xf6, 0xb2, 0x01]
    case Claim(_, _) => [0x63, 0xf4, 0x49, 0x68]
    case ReturnBond(_, _) => [0x3a, 0xc9, 0xdf, 0xd3]
  }

  /** The static words of the argument list, in signature order. */
  ghost function StaticWords(w: Write): (ws: seq<Word>)
    ensures |ws| <= 7
  {
    match w
    case StartExecution(id) => [WordOf(id)]
    case SubmitCommitment(id, c) => [WordOf(id), c]
    case SubmitResult(id, _, _) => [WordOf(id)]
    case CompleteJob(id) => [WordOf(id)]
    case BidOnJob(id, price, latency) => [WordOf(id), WordOf(price), WordOf(latency)]
    case AssignBestBid(id) => [WordOf(id)]
    case RegisterProvider(_) => []
    case ClaimRewards => []
    case Heartbeat => []
    case RegisterPinner => []
    case SealCommit(cid, sector, replica, epoch, d, r, c, _) =>
      [cid, WordOf(sector), replica, WordOf(epoch), d, r, c]
    case Challenge(cid, sector) => [cid, WordOf(sector)]
    case SubmitPoSt(cid, sector, r, c, nonce, _) => [cid, WordOf(sector), r, c, nonce]
    case Claim(cid, sector) => [cid, WordOf(sector)]
    case ReturnBond(cid, sector) => [cid, WordOf(sector)]
  }

  /** The dynamic arguments, which come last in every signature. */
  ghost function Dynamic(w: Write): (args: Args)
    ensures Length(args) <= 2
  {
    match w
    case SubmitResult(_, h, p) => Cons(VBytes(h), Cons(VBytes(p), Nil))
    case RegisterProvider(models) => Cons(VWords(models), Nil)
    case SealCommit(_, _, _, _, _, _, _, proof) => Cons(VBytes(proof), Nil)
    case SubmitPoSt(_, _, _, _, _, proof) => Cons(VBytes(proof), Nil)
    case _ => Nil
  }

  ghost function ArgsOf(w: Write): Args {
    Prepend(StaticWords(w), Dynamic(w))
  }

  /** Static words in front of an argument list. */
  ghost function Prepend(ws: seq<Word>, args: Args): Args {
    if ws == [] then args else Cons(VWord(ws[0]), Prepend(ws[1..], args))
  }

  ghost function CalldataOf(w: Write): Bytes {
    Selector(w) + Encode(ArgsOf(w))
  }

  // ---- calldata identifies the write ----

  lemma {:induction false} PrependTails(ws: seq<Word>, args: Args)
    ensures Length(Prepend(ws, args)) == |ws| + Length(args)
    ensures Tails(Prepend(ws, args)) == Tails(args)
  {
    if ws != [] {
      PrependTails(ws[1..], args);
      assert Tails(Prepend(ws, args)) == Tail(VWord(ws[0])) + Tails(args);
    }
  }

  lemma {:induction false} PrependHeads(ws: seq<Word>, args: Args, offset: nat)
    ensures Heads(Prepend(ws, args), offset) == Concat(ws) + Heads(args, offset)
  {
    if ws != [] {
      var rest, heads := Prepend(ws[1..], args), Heads(args, offset);
      PrependHeads(ws[1..], args, offset);
      assert Tail(VWord(ws[0])) == [];
      assert Heads(Prepend(ws, args), offset) == ws[0] + Heads(rest, offset);
      Associate(ws[0], Concat(ws[1..]), heads);
    }
  }

  lemma Associate(a: Bytes, b: Bytes, c: Bytes)
    ensures a + (b + c) == (a + b) + c
  {
  }

  lemma {:induction false} PrependInjective(ws: seq<Word>, ws': seq<Word>, args: Args, args': Args)
    requires |ws| == |ws'|
    ensures Prepend(ws, args) == Prepend(ws', args') ==> ws == ws' && args == args'
    ensures TypesOf(args) == TypesOf(args') ==> TypesOf(Prepend(ws, args)) == TypesOf(Prepend(ws', args'))
  {
    if ws != [] {
      PrependInjective(ws[1..], ws'[1..], args, args');
    }
  }

  /** The encoding of static words followed by dynamic arguments. */
  lemma EncodeLayout(ws: seq<Word>, args: Args, offset: nat, heads: Bytes, tails: Bytes)
    requires offset == 32 * (|ws| + Length(args))
    requires heads == Heads(args, offset) && tails == Tails(args)
    ensures Encode(Prepend(ws, args)) == Concat(ws) + heads + tails
  {
    var list := Prepend(ws, args);
    PrependTails(ws, args);
    PrependHeads(ws, args, offset);
    assert 32 * Length(list) == offset;
  }

  lemma SelectorsDistinct(a: Write, b: Write)
    requires Selector(a) == Selector(b)
    ensures Kind(a) == Kind(b)
  {
    assert Selector(a)[0] == Selector(b)[0] && Selector(a)[1] == Selector(b)[1];
  }

  function StaticCount(kind: nat): nat {
    match kind
    case 1 => 2
    case 4 => 3
    case 6 => 0
    case 7 => 0
    case 8 => 0
    case 9 => 0
    case 10 => 7
    case 11 => 2
    case 12 => 5
    case 13 => 2
    case 14 => 2
    case _ => 1
  }

  lemma SameSignature(a: Write, b: Write)
    requires Kind(a) == Kind(b)
    ensures TypesOf(ArgsOf(a)) == TypesOf(ArgsOf(b))
    ensures ArgsOf(a) == ArgsOf(b) ==> StaticWords(a) == StaticWords(b) && Dynamic(a) == Dynamic(b)
  {
    assert TypesOf(Dynamic(a)) == TypesOf(Dynamic(b));
    assert |StaticWords(a)| == StaticCount(Kind(a));
    assert |StaticWords(b)| == StaticCount(Kind(b));
    PrependInjective(StaticWords(a), StaticWords(b), Dynamic(a), Dynamic(b));
  }

  function Kind(w: Write): nat {
    match w
    case StartExecution(_) => 0
    case SubmitCommitment(_, _) => 1
    case SubmitResult(_, _, _) => 2
    case CompleteJob(_) => 3
    case BidOnJob(_, _, _) => 4
    case AssignBestBid(_) => 5
    case RegisterProvider(_) => 6
    case ClaimRewards => 7
    case Heartbeat => 8
    case RegisterPinner => 9
    case SealCommit(_, _, _, _, _, _, _, _) => 10
    case Challenge(_, _) => 11
    case SubmitPoSt(_, _, _, _, _, _) => 12
    case Claim(_, _) => 13
    case ReturnBond(_, _) => 14
  }

  lemma TailBound(v: AbiValue)
    requires v.VBytes? ==> |v.b| <= VEC_MAX
    requires v.VWords? ==> |v.ws| <= VEC_MAX
    ensures |Tail(v)| <= 64 + 32 * VEC_MAX
  {
  }

  lemma TwoTailLength(a: AbiValue, b: AbiValue)
    ensures |Tails(Cons(a, Cons(b, Nil)))| == |Tail(a)| + |Tail(b)|
  {
    assert Tails(Cons(b, Nil)) == Tail(b) + Tails(Nil);
  }

  lemma DynamicBound(w: Write)
    ensures |Tails(Dynamic(w))| <= 128 + 64 * VEC_MAX
  {
    match w {
      case SubmitResult(_, h, p) =>
        TailBound(VBytes(h));
        TailBound(VBytes(p));
        TwoTailLength(VBytes(h), VBytes(p));
      case RegisterProvider(models) =>
        TailBound(VWords(models));
        OneDynamic(VWords(models), 0);
      case SealCommit(_, _, _, _, _, _, _, p) =>
        TailBound(VBytes(p));
        OneDynamic(VBytes(p), 0);
      case SubmitPoSt(_, _, _, _, _, p) =>
        TailBound(VBytes(p));
        OneDynamic(VBytes(p), 0);
      case _ =>
    }
  }

  /** Buffers are bounded by `VEC_MAX`, so every calldata stays addressable. */
  lemma CalldataFits(w: Write)
    ensures |Encode(ArgsOf(w))| <= U128_MAX
  {
    var ws, args := StaticWords(w), Dynamic(w);
    var offset := 32 * (|ws| + Length(args));
    var heads, tails := Heads(args, offset), Tails(args);
    EncodeLayout(ws, args, offset, heads, tails);
    DynamicBound(w);
  }

  /** A contract that decodes the arguments by the ABI receives exactly those of the write. */
  lemma CalldataDecodes(w: Write)
    ensures |CalldataOf(w)| >= 4 && CalldataOf(w)[..4] == Selector(w)
    ensures Decode(TypesOf(ArgsOf(w)), CalldataOf(w)[4..]) == Some(ArgsOf(w))
  {
    CalldataFits(w);
    DecodeEncode(ArgsOf(w));
    assert CalldataOf(w)[..4] == Selector(w);
    assert CalldataOf(w)[4..] == Encode(ArgsOf(w));
  }

  lemma NumberArgument(a: u128, b: u128)
    requires WordOf(a) == WordOf(b)
    ensures a == b
  {
    NumberOfWord(a);
    NumberOfWord(b);
  }

  lemma ArgsIdentify(a: Write, b: Write)
    requires Kind(a) == Kind(b) && StaticWords(a) == StaticWords(b) && Dynamic(a) == Dynamic(b)
    ensures a == b
  {
    match a {
      case StartExecution(id) => NumberArgument(id, b.jobId);
      case SubmitCommitment(id, _) => NumberArgument(id, b.jobId);
      case SubmitResult(id, _, _) => NumberArgument(id, b.jobId);
      case CompleteJob(id) => NumberArgument(id, b.jobId);
      case BidOnJob(id, price, latency) =>
        NumberArgument(id, b.jobId);
        NumberArgument(price, b.price);
        NumberArgument(latency, b.latency);
      case AssignBestBid(id) => NumberArgument(id, b.jobId);
      case SealCommit(_, sector, _, epoch, _, _, _, _) =>
        NumberArgument(sector, b.sector);
        NumberArgument(epoch, b.epoch);
      case Challenge(_, sector) => NumberArgument(sector, b.sector);
      case SubmitPoSt(_, sector, _, _, _, _) => NumberArgument(sector, b.sector);
      case Claim(_, sector) => NumberArgument(sector, b.sector);
      case ReturnBond(_, sector) => NumberArgument(sector, b.sector);
      case _ =>
    }
  }

  /** Equal calldata means the same function with the same arguments. */
  lemma CalldataInjective(a: Write, b: Write)
    requires CalldataOf(a) == CalldataOf(b)
    ensures a == b
  {
    CalldataDecodes(a);
    CalldataDecodes(b);
    SelectorsDistinct(a, b);
    SameSignature(a, b);
    ArgsIdentify(a, b);
  }

  /** The queue stores calldata as hex text; that too identifies the write. */
  lemma HexCalldataInjective(a: Write, b: Write)
    requires "0x" + HexOf(CalldataOf(a)) == "0x" + HexOf(CalldataOf(b))
    ensures a == b
  {
    assert ("0x" + HexOf(CalldataOf(a)))[2..] == HexOf(CalldataOf(a));
    assert ("0x" + HexOf(CalldataOf(b)))[2..] == HexOf(CalldataOf(b));
    HexInjective(CalldataOf(a), CalldataOf(b));
    CalldataInjective(a, b);
  }

  // ---- the hand-written builders ----

  lemma StaticCalldata(w: Write)
    requires Dynamic(w) == Nil
    ensures CalldataOf(w) == Selector(w) + Concat(StaticWords(w))
  {
    EncodeLayout(StaticWords(w), Nil, 32 * |StaticWords(w)|, [], []);
  }

  /** `encode_start_execution`, `encode_complete_job` and `encode_assign_best_bid` differ in selector only. */
  method EncodeJobCall(w: Write) returns (out: Bytes)
    requires w.StartExecution? || w.CompleteJob? || w.AssignBestBid?
    ensures out == CalldataOf(w)
  {
    var id := WordFromU128(w.jobId);
    out := EncodeCall(Selector(w), [id]);
    StaticCalldata(w);
  }

  method EncodeSubmitCommitment(jobId: u128, commitment: Word) returns (out: Bytes)
    ensures out == CalldataOf(SubmitCommitment(jobId, commitment))
  {
    var id := WordFromU128(jobId);
    out := EncodeCall([0xe6, 0xa3, 0xd9, 0xdc], [id, commitment]);
    StaticCalldata(SubmitCommitment(jobId, commitment));
  }

  method EncodeBidOnJob(jobId: u128, price: u128, latency: u128) returns (out: Bytes)
    ensures out == CalldataOf(BidOnJob(jobId, price, latency))
  {
    var id := WordFromU128(jobId);
    var p := WordFromU128(price);
    var l := WordFromU128(latency);
    out := EncodeCall([0x18, 0x36, 0x0f, 0xc2], [id, p, l]);
    StaticCalldata(BidOnJob(jobId, price, latency));
  }

  /** `encode_challenge`, `encode_claim` and `encode_return_bond`: a content id and a sector. */
  method EncodePinCall(w: Write) returns (out: Bytes)
    requires w.Challenge? || w.Claim? || w.ReturnBond?
    ensures out == CalldataOf(w)
  {
    var sector := WordFromU128(w.sector);
    out := EncodeCall(Selector(w), [w.cid, sector]);
    assert StaticWords(w) == [w.cid, sector] && Dynamic(w) == Nil;
    StaticCalldata(w);
  }

  /** `encode_register_pinner`, `heartbeat_calldata` and `claimRewards()` carry no arguments. */
  method EncodeNoArgs(w: Write) returns (out: Bytes)
    requires w.RegisterPinner? || w.Heartbeat? || w.ClaimRewards?
    ensures out == CalldataOf(w)
  {
    var none: seq<Word> := [];
    out := EncodeCall(Selector(w), none);
    assert StaticWords(w) == none && Dynamic(w) == Nil;
    StaticCalldata(w);
  }

  lemma TwoTails(w: Word, a: AbiValue, b: AbiValue)
    requires !a.VWord? && !b.VWord?
    ensures Encode(Prepend([w], Cons(a, Cons(b, Nil))))
         == Concat([w]) + (WordOf(96) + WordOf(96 + |Tail(a)|)) + (Tail(a) + Tail(b))
  {
    TwoDynamic(a, b, 96);
    EncodeLayout([w], Cons(a, Cons(b, Nil)), 96, WordOf(96) + WordOf(96 + |Tail(a)|), Tail(a) + Tail(b));
  }

  lemma ConcatOne(w: Word)
    ensures Concat([w]) == w
  {
    assert [w][1..] == [];
  }

  lemma TwoDynamic(a: AbiValue, b: AbiValue, offset: nat)
    requires !a.VWord? && !b.VWord?
    ensures Length(Cons(a, Cons(b, Nil))) == 2
    ensures Heads(Cons(a, Cons(b, Nil)), offset) == WordOf(offset) + WordOf(offset + |Tail(a)|)
    ensures Tails(Cons(a, Cons(b, Nil))) == Tail(a) + Tail(b)
  {
    OneDynamic(b, offset + |Tail(a)|);
  }

  lemma OneDynamic(a: AbiValue, offset: nat)
    requires !a.VWord?
    ensures Length(Cons(a, Nil)) == 1
    ensures Heads(Cons(a, Nil), offset) == WordOf(offset)
    ensures Tails(Cons(a, Nil)) == Tail(a)
  {
    assert Heads(Nil, offset + |Tail(a)|) == [] && Tails(Nil) == [];
  }

  /** `encode_submit_result`: two dynamic tails behind a three-word head. */
  method EncodeSubmitResult(jobId: u128, outputHash: Vec, proof: Vec) returns (out: Bytes)
    ensures out == CalldataOf(SubmitResult(jobId, outputHash, proof))
  {
    var headLen := 3 * 32;
    var outputTail := EncodeBytesTail(outputHash);
    var proofTail := EncodeBytesTail(proof);
    var id := WordFromU128(jobId);
    var offOutput := WordFromU128(headLen);
    var offProof := WordFromU128(headLen + |outputTail|);
    out := [0xba, 0xa2, 0xc0, 0x78];
    out := out + id;
    out := out + offOutput;
    out := out + offProof;
    out := out + outputTail;
    out := out + proofTail;
    TwoTails(id, VBytes(outputHash), VBytes(proof));
    ConcatOne(id);
    Reassociate(Selector(SubmitResult(jobId, outputHash, proof)), id, offOutput, offProof, outputTail, proofTail);
  }

  lemma Reassociate(s: Bytes, a: Bytes, b: Bytes, c: Bytes, d: Bytes, e: Bytes)
    ensures s + (a + (b + c) + (d + e)) == s + a + b + c + d + e
  {
  }

  /** `encode_register_provider`: the head offset, the length and the elements as one word list. */
  method EncodeRegisterProvider(models: ModelList) returns (out: Bytes)
    ensures out == CalldataOf(RegisterProvider(models))
  {
    var offset := WordFromU128(0x20);
    var count := WordFromU128(|models|);
    var args: seq<Word> := [offset, count];
    args := args + models;
    out := EncodeCall([0x05, 0x89, 0xcd, 0x44], args);
    assert args[1..] == [count] + models && args[1..][1..] == models;
    OneDynamic(VWords(models), 32);
    EncodeLayout([], Cons(VWords(models), Nil), 32, offset, count + Concat(models));
  }

  lemma OneTail(ws: seq<Word>, b: Bytes)
    ensures Encode(Prepend(ws, Cons(VBytes(b), Nil)))
         == Concat(ws) + WordOf(32 * (|ws| + 1)) + Tail(VBytes(b))
  {
    var offset := 32 * (|ws| + 1);
    OneDynamic(VBytes(b), offset);
    EncodeLayout(ws, Cons(VBytes(b), Nil), offset, WordOf(offset), Tail(VBytes(b)));
  }

  /** `encode_seal_commit`: seven static words, one offset, one tail. */
  method EncodeSealCommit(cid: Word, sector: u128, replicaId: Word, epoch: u128,
                          commD: Word, commR: Word, commC: Word, porepProof: Vec) returns (out: Bytes)
    ensures out == CalldataOf(SealCommit(cid, sector, replicaId, epoch, commD, commR, commC, porepProof))
  {
    var headLen := 8 * 32;
    var tail := EncodeBytesTail(porepProof);
    var sectorWord := WordFromU128(sector);
    var epochWord := WordFromU128(epoch);
    var offset := WordFromU128(headLen);
    out := EncodeCall([0x51, 0xa0, 0xed, 0x88], [cid, sectorWord, replicaId, epochWord, commD, commR, commC]);
    out := out + offset;
    out := out + tail;
    OneTail([cid, sectorWord, replicaId, epochWord, commD, commR, commC], porepProof);
  }

  /** `encode_submit_post`: five static words, one offset, one tail. */
  method EncodeSubmitPoSt(cid: Word, sector: u128, commR: Word, commC: Word, nonce: Word, postProof: Vec)
    returns (out: Bytes)
    ensures out == CalldataOf(SubmitPoSt(cid, sector, commR, commC, nonce, postProof))
  {
    var headLen := 6 * 32;
    var tail := EncodeBytesTail(postProof);
    var sectorWord := WordFromU128(sector);
    var offset := WordFromU128(headLen);
    out := EncodeCall([0x43, 0xf6, 0xb2, 0x01], [cid, sectorWord, commR, commC, nonce]);
    out := out + offset;
    out := out + tail;
    OneTail([cid, sectorWord, commR, commC, nonce], postProof);
  }
}
