/** Decoding of `ComputeMarketplace.getJob` return data. */
module Marketplace {
  import opened Prelude
  import opened AbiSpec
  import opened Abi
  import opened Calldata

  datatype JobState =
    | Posted | Bidding | Assigned | Executing | Verifying
    | Completed | Expired | Timeout | Failed | Disputed

  datatype Tier = Commitment | ZKProof | Tee

  datatype Job = Job(
    id: u128,
    requester: Address,
    modelHash: Word,
    maxPrice: u128,
    tier: Tier,
    state: JobState,
    assignedProvider: Address,
    escrow: u128,
    bidDeadline: u128,
    executionDeadline: u128,
    createdAt: u128,
    bidCount: u128,
    inputHash: Option<Word>)

  function StateOf(v: byte): Result<JobState, AbiError> {
    match v
    case 0 => Ok(Posted)
    case 1 => Ok(Bidding)
    case 2 => Ok(Assigned)
    case 3 => Ok(Executing)
    case 4 => Ok(Verifying)
    case 5 => Ok(Completed)
    case 6 => Ok(Expired)
    case 7 => Ok(Timeout)
    case 8 => Ok(Failed)
    case 9 => Ok(Disputed)
    case _ => Err(Overflow)
  }

  function TierOf(v: byte): Result<Tier, AbiError> {
    match v
    case 0 => Ok(Commitment)
    case 1 => Ok(ZKProof)
    case 2 => Ok(Tee)
    case _ => Err(Overflow)
  }

  /** A word as a byte offset or length; `None` unless it fits 64 bits. */
  function AsUsize(w: Word): Option<u64> {
    if Number(w) <= U64_MAX then Some(Number(w)) else None
  }

  method WordUsize(w: Word) returns (r: Option<u64>)
    ensures r == AsUsize(w)
  {
    UsizeBytes(w);
    if exists i :: 0 <= i < 24 && w[i] != 0 {
      return None;
    }
    r := Some(Number(w[24..]));
  }

  /** `checked_add` on `usize`. */
  function CheckedAdd(a: u64, b: u64): Option<u64> {
    if a + b <= U64_MAX then Some(a + b) else None
  }

  /** A length word 32 followed by `h` is stored at the sum of the two offsets. */
  ghost predicate HashStoredAt(data: Bytes, tupleOffset: Word, relOffset: Word, h: Word) {
    var at := Number(tupleOffset) + Number(relOffset);
    && Number(tupleOffset) <= U64_MAX && Number(relOffset) <= U64_MAX
    && at + 64 <= |data|
    && Number(data[at..at + 32]) == 32
    && data[at + 32..at + 64] == h
  }

  /** `decode_input_hash`: total for every offset word, and `Some(h)` exactly when `h` is stored. */
  method DecodeInputHash(data: Vec, tupleOffset: Word, relOffset: Word) returns (r: Option<Word>)
    ensures forall h :: r == Some(h) <==> HashStoredAt(data, tupleOffset, relOffset, h)
  {
    var a := WordUsize(tupleOffset);
    if a.None? { return None; }
    var b := WordUsize(relOffset);
    if b.None? { return None; }
    var lenAt := CheckedAdd(a.value, b.value);
    if lenAt.None? { return None; }
    var lenEnd := CheckedAdd(lenAt.value, 32);
    if lenEnd.None? || lenEnd.value > |data| { return None; }
    var len := WordUsize(data[lenAt.value..lenEnd.value]);
    if len != Some(32) { return None; }
    var end := CheckedAdd(lenEnd.value, 32);
    if end.None? || end.value > |data| { return None; }
    r := Some(data[lenEnd.value..end.value]);
  }

  /** The hash `DecodeInputHash` finds. */
  ghost function StoredHash(data: Bytes, tupleOffset: Word, relOffset: Word): Option<Word> {
    var at := Number(tupleOffset) + Number(relOffset);
    if at + 64 <= |data| && HashStoredAt(data, tupleOffset, relOffset, data[at + 32..at + 64])
    then Some(data[at + 32..at + 64]) else None
  }

  /** The fourteen leading words, read in order; the first that is missing or malformed is the error. */
  ghost function JobIn(data: Bytes): Result<Job, AbiError> {
    var tupleOffset :- ReadWord(data, 0);
    var id :- ReadU128(data, 32);
    var requester :- ReadAddress(data, 64);
    var modelHash :- ReadWord(data, 96);
    var relOffset :- ReadWord(data, 128);
    var maxPrice :- ReadU128(data, 160);
    var tierByte :- ReadU8(data, 192);
    var tier :- TierOf(tierByte);
    var stateByte :- ReadU8(data, 224);
    var state :- StateOf(stateByte);
    var provider :- ReadAddress(data, 256);
    var escrow :- ReadU128(data, 288);
    var bidDeadline :- ReadU128(data, 320);
    var executionDeadline :- ReadU128(data, 352);
    var createdAt :- ReadU128(data, 384);
    var bidCount :- ReadU128(data, 416);
    Ok(Job(id, requester, modelHash, maxPrice, tier, state, provider, escrow, bidDeadline,
           executionDeadline, createdAt, bidCount, StoredHash(data, tupleOffset, relOffset)))
  }

  /** Where the fields of a decoded job stand in the return data, by byte. */
  lemma JobAtOffsets(data: Bytes, j: Job)
    requires JobIn(data) == Ok(j)
    ensures |data| >= 448
    ensures Number(data[32..64]) == j.id && data[96..128] == j.modelHash
    ensures Number(data[160..192]) == j.maxPrice
    ensures Number(data[192..224]) < 3 && [Commitment, ZKProof, Tee][Number(data[192..224])] == j.tier
    ensures Number(data[224..256]) < 10 && [Posted, Bidding, Assigned, Executing, Verifying, Completed, Expired,
                                            Timeout, Failed, Disputed][Number(data[224..256])] == j.state
    ensures Number(data[288..320]) == j.escrow
    ensures Number(data[320..352]) == j.bidDeadline && Number(data[352..384]) == j.executionDeadline
    ensures Number(data[384..416]) == j.createdAt && Number(data[416..448]) == j.bidCount
  {
  }

  /** The two addresses, whole words with nothing in front. */
  lemma AddressesAtOffsets(data: Bytes, j: Job)
    requires JobIn(data) == Ok(j)
    ensures |data| >= 448
    ensures Number(data[64..96]) == Number(j.requester)
    ensures Number(data[256..288]) == Number(j.assignedProvider)
  {
    var r, p: Word := data[64..96], data[256..288];
    assert ToAddress(r) == Ok(j.requester) && ToAddress(p) == Ok(j.assignedProvider);
    NarrowingIsExact(r);
    NarrowingIsExact(p);
  }

  /** `Job::decode`: the cursor walks the tuple head; the input hash is fetched from its tail. */
  method DecodeJob(data: Vec) returns (r: Result<Job, AbiError>)
    ensures r == JobIn(data)
  {
    var d := new Decoder(data);
    var tupleOffset :- d.Word();
    var id :- d.U128();
    var requester :- d.Address();
    var modelHash :- d.Word();
    var relOffset :- d.Word();
    var maxPrice :- d.U128();
    var tierByte :- d.U8Enum();
    var tier :- TierOf(tierByte);
    var stateByte :- d.U8Enum();
    var state :- StateOf(stateByte);
    var provider :- d.Address();
    var escrow :- d.U128();
    var bidDeadline :- d.U128();
    var executionDeadline :- d.U128();
    var createdAt :- d.U128();
    var bidCount :- d.U128();
    var inputHash := DecodeInputHash(data, tupleOffset, relOffset);
    StoredHashFound(data, tupleOffset, relOffset, inputHash);
    r := Ok(Job(id, requester, modelHash, maxPrice, tier, state, provider, escrow, bidDeadline,
                executionDeadline, createdAt, bidCount, inputHash));
  }

  lemma StoredHashFound(data: Bytes, tupleOffset: Word, relOffset: Word, r: Option<Word>)
    requires forall h :: r == Some(h) <==> HashStoredAt(data, tupleOffset, relOffset, h)
    ensures r == StoredHash(data, tupleOffset, relOffset)
  {
    match r {
      case Some(h) => assert HashStoredAt(data, tupleOffset, relOffset, h);
      case None =>
    }
  }

  // ---- canonical return data decodes to the job it describes ----

  function TierNumber(t: Tier): u128 {
    match t case Commitment => 0 case ZKProof => 1 case Tee => 2
  }

  function StateNumber(s: JobState): u128 {
    match s
    case Posted => 0 case Bidding => 1 case Assigned => 2 case Executing => 3 case Verifying => 4
    case Completed => 5 case Expired => 6 case Timeout => 7 case Failed => 8 case Disputed => 9
  }

  function AddressWord32(a: Address): Word {
    Zeros(12) + a
  }

  ghost function HeadBefore(j: Job): seq<Word> {
    [WordOf(j.id), AddressWord32(j.requester), j.modelHash]
  }

  ghost function HeadAfter(j: Job): seq<Word> {
    [WordOf(j.maxPrice), WordOf(TierNumber(j.tier)), WordOf(StateNumber(j.state)),
     AddressWord32(j.assignedProvider), WordOf(j.escrow), WordOf(j.bidDeadline),
     WordOf(j.executionDeadline), WordOf(j.createdAt), WordOf(j.bidCount)]
  }

  /** The Solidity return encoding of `getJob`: one dynamic tuple whose fourth field is `bytes`. */
  ghost function EncodeJob(j: Job, inputHash: Bytes): Bytes {
    WordOf(0x20) + Encode(Prepend(HeadBefore(j), Cons(VBytes(inputHash), Prepend(HeadAfter(j), Nil))))
  }

  lemma {:induction false} ReadConcat(ws: seq<Word>, k: nat, rest: Bytes)
    requires k < |ws|
    ensures ReadWord(Concat(ws) + rest, 32 * k) == Ok(ws[k])
  {
    var tail := Concat(ws[1..]);
    var data := tail + rest;
    Associate(ws[0], tail, rest);
    if k > 0 {
      ReadConcat(ws[1..], k - 1, rest);
    }
    ReadShift(ws[0], data, k);
  }

  /** Prepending a word shifts every read by one word. */
  lemma ReadShift(w: Word, data: Bytes, k: nat)
    ensures ReadWord(w + data, 0) == Ok(w)
    ensures k > 0 && ReadWord(data, 32 * (k - 1)).Ok? ==>
              ReadWord(w + data, 32 * k) == ReadWord(data, 32 * (k - 1))
  {
    assert (w + data)[0..32] == w;
    if k > 0 && 32 * k <= |data| {
      assert (w + data)[32 * k..32 * k + 32] == data[32 * k - 32..32 * k];
    }
  }

  lemma {:induction false} ConcatJoin(a: seq<Word>, b: seq<Word>)
    ensures Concat(a + b) == Concat(a) + Concat(b)
  {
    if a == [] {
      assert a + b == b;
    } else {
      ConcatJoin(a[1..], b);
      Associate(a[0], Concat(a[1..]), Concat(b));
      assert (a + b)[1..] == a[1..] + b;
    }
  }

  /** All fourteen head words in a row, then the `bytes` tail. */
  ghost function HeadWords(j: Job): (ws: seq<Word>)
    ensures |ws| == 14
  {
    [WordOf(0x20)] + HeadBefore(j) + [WordOf(416)] + HeadAfter(j)
  }

  lemma JobDataLayout(j: Job, inputHash: Bytes)
    ensures EncodeJob(j, inputHash) == Concat(HeadWords(j)) + Tail(VBytes(inputHash))
  {
    var after := Prepend(HeadAfter(j), Nil);
    var dyn := Cons(VBytes(inputHash), after);
    var t := Tail(VBytes(inputHash));
    PrependTails(HeadAfter(j), Nil);
    PrependHeads(HeadAfter(j), Nil, 416 + |t|);
    EncodeLayout(HeadBefore(j), dyn, 416, WordOf(416) + Concat(HeadAfter(j)), t);
    ConcatJoin([WordOf(0x20)] + HeadBefore(j) + [WordOf(416)], HeadAfter(j));
    ConcatJoin([WordOf(0x20)] + HeadBefore(j), [WordOf(416)]);
    ConcatJoin([WordOf(0x20)], HeadBefore(j));
    ConcatOne(WordOf(0x20));
    ConcatOne(WordOf(416));
    Flat(WordOf(0x20), Concat(HeadBefore(j)), WordOf(416), Concat(HeadAfter(j)), t);
  }

  lemma Flat(a: Bytes, b: Bytes, c: Bytes, d: Bytes, e: Bytes)
    ensures a + (b + (c + d) + e) == a + b + c + d + e
  {
  }

  lemma TailHash(head: Bytes, inputHash: Bytes, data: Bytes)
    requires |head| == 448 && data == head + Tail(VBytes(inputHash)) && |inputHash| <= U128_MAX
    ensures StoredHash(data, WordOf(0x20), WordOf(416))
         == if |inputHash| == 32 then Some(inputHash) else None
  {
    NumberOfWord(0x20);
    NumberOfWord(416);
    NumberOfWord(|inputHash|);
    var len, pad := WordOf(|inputHash|), Zeros(Padded(|inputHash|) - |inputHash|);
    Regroup5(head, len, inputHash, pad, []);
    assert data == head + (len + inputHash + pad) + [];
    Middle(head, len, inputHash + pad + []);
    Middle(head + len, inputHash, pad + []);
  }

  /** Decoding the canonical encoding of a job returns that job, with its input hash when it is
      32 bytes long. */
  lemma JobRoundTrip(j: Job, inputHash: Vec)
    ensures JobIn(EncodeJob(j, inputHash))
         == Ok(j.(inputHash := if |inputHash| == 32 then Some(inputHash) else None))
  {
    var data, ws := EncodeJob(j, inputHash), HeadWords(j);
    JobDataLayout(j, inputHash);
    forall k | 0 <= k < 14
      ensures ReadWord(data, 32 * k) == Ok(ws[k])
    {
      ReadConcat(ws, k, Tail(VBytes(inputHash)));
    }
    TailHash(Concat(ws), inputHash, data);
    JobFromHead(j, data, if |inputHash| == 32 then Some(inputHash) else None);
  }

  lemma JobFromHead(j: Job, data: Bytes, h: Option<Word>)
    requires forall k :: 0 <= k < 14 ==> ReadWord(data, 32 * k) == Ok(HeadWords(j)[k])
    requires StoredHash(data, WordOf(0x20), WordOf(416)) == h
    ensures JobIn(data) == Ok(j.(inputHash := h))
  {
    assert ReadWord(data, 32 * 0) == Ok(WordOf(0x20)) && ReadWord(data, 32 * 4) == Ok(WordOf(416));
    JobHead(j, data);
    NumbersReadBack(j);
  }

  lemma JobHead(j: Job, data: Bytes)
    requires forall k :: 0 <= k < 14 ==> ReadWord(data, 32 * k) == Ok(HeadWords(j)[k])
    ensures ReadWord(data, 32) == Ok(WordOf(j.id))
    ensures ReadWord(data, 64) == Ok(AddressWord32(j.requester))
    ensures ReadWord(data, 96) == Ok(j.modelHash)
    ensures ReadWord(data, 160) == Ok(WordOf(j.maxPrice))
    ensures ReadWord(data, 192) == Ok(WordOf(TierNumber(j.tier)))
    ensures ReadWord(data, 224) == Ok(WordOf(StateNumber(j.state)))
    ensures ReadWord(data, 256) == Ok(AddressWord32(j.assignedProvider))
    ensures ReadWord(data, 288) == Ok(WordOf(j.escrow))
    ensures ReadWord(data, 320) == Ok(WordOf(j.bidDeadline))
    ensures ReadWord(data, 352) == Ok(WordOf(j.executionDeadline))
    ensures ReadWord(data, 384) == Ok(WordOf(j.createdAt))
    ensures ReadWord(data, 416) == Ok(WordOf(j.bidCount))
  {
    assert ReadWord(data, 32 * 1) == Ok(HeadWords(j)[1]) && ReadWord(data, 32 * 2) == Ok(HeadWords(j)[2]);
    assert ReadWord(data, 32 * 3) == Ok(HeadWords(j)[3]) && ReadWord(data, 32 * 5) == Ok(HeadWords(j)[5]);
    assert ReadWord(data, 32 * 6) == Ok(HeadWords(j)[6]) && ReadWord(data, 32 * 7) == Ok(HeadWords(j)[7]);
    assert ReadWord(data, 32 * 8) == Ok(HeadWords(j)[8]) && ReadWord(data, 32 * 9) == Ok(HeadWords(j)[9]);
    assert ReadWord(data, 32 * 10) == Ok(HeadWords(j)[10]) && ReadWord(data, 32 * 11) == Ok(HeadWords(j)[11]);
    assert ReadWord(data, 32 * 12) == Ok(HeadWords(j)[12]) && ReadWord(data, 32 * 13) == Ok(HeadWords(j)[13]);
  }

  lemma NumbersReadBack(j: Job)
    ensures ToU128(WordOf(j.id)) == Ok(j.id) && ToU128(WordOf(j.maxPrice)) == Ok(j.maxPrice)
    ensures ToU128(WordOf(j.escrow)) == Ok(j.escrow) && ToU128(WordOf(j.bidDeadline)) == Ok(j.bidDeadline)
    ensures ToU128(WordOf(j.executionDeadline)) == Ok(j.executionDeadline)
    ensures ToU128(WordOf(j.createdAt)) == Ok(j.createdAt) && ToU128(WordOf(j.bidCount)) == Ok(j.bidCount)
    ensures ToU8(WordOf(TierNumber(j.tier))) == Ok(TierNumber(j.tier)) && TierOf(TierNumber(j.tier)) == Ok(j.tier)
    ensures ToU8(WordOf(StateNumber(j.state))) == Ok(StateNumber(j.state))
    ensures StateOf(StateNumber(j.state)) == Ok(j.state)
    ensures ToAddress(AddressWord32(j.requester)) == Ok(j.requester)
    ensures ToAddress(AddressWord32(j.assignedProvider)) == Ok(j.assignedProvider)
  {
    ReadBackU128(j.id);
    ReadBackU128(j.maxPrice);
    ReadBackU128(j.escrow);
    ReadBackU128(j.bidDeadline);
    ReadBackU128(j.executionDeadline);
    ReadBackU128(j.createdAt);
    ReadBackU128(j.bidCount);
    NumberOfWord(TierNumber(j.tier));
    NumberOfWord(StateNumber(j.state));
    ReadBackAddress(j.requester);
    ReadBackAddress(j.assignedProvider);
  }
}
