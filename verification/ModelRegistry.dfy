/** Decoding of `ModelRegistry.getModel`: the offset and the length come from the network, so every
    step is checked. */
module ModelRegistry {
  import opened Prelude
  import opened AbiSpec
  import opened Abi
  import opened Calldata

  datatype ModelInfo = ModelInfo(owner: Address, ipfsCid: Bytes, isActive: bool)

  /** `data` holds model `m`: owner in word 0, the flag in word 7, and behind the offset in word 4
      a length and that many bytes of valid UTF-8. */
  ghost predicate ModelIn(data: Bytes, m: ModelInfo, utf8: Bytes -> bool) {
    && |data| >= 256
    && Number(data[0..32]) < ADDRESS_LIMIT && m.owner == data[12..32]
    && Number(data[224..256]) <= 1 && m.isActive == (Number(data[224..256]) == 1)
    && StringAt(data, Number(data[128..160]), m.ipfsCid)
    && utf8(m.ipfsCid)
  }

  /** A count and then the bytes of `s` are stored at a word boundary. */
  ghost predicate StringAt(data: Bytes, offset: nat, s: Bytes) {
    && offset % 32 == 0 && offset + 32 <= |data|
    && Number(data[offset..offset + 32]) == |s|
    && offset + 32 + |s| <= |data| && s == data[offset + 32..offset + 32 + |s|]
  }

  /** `word_at`, with checked arithmetic on a hostile index. */
  method WordAt(data: Vec, i: u64) returns (r: Result<Word, AbiError>)
    ensures 32 * i + 32 <= |data| ==> r == Ok(data[32 * i..32 * i + 32])
    ensures 32 * i + 32 > |data| ==> r.Err?
  {
    if i * 32 > U64_MAX || i * 32 + 32 > U64_MAX {
      return Err(Overflow);
    }
    var start := i * 32;
    if start + 32 > |data| {
      return Err(TooShort(Min(i + 1, U64_MAX), |data| / 32));
    }
    r := Ok(data[start..start + 32]);
  }

  /** `be_usize` */
  method BeUsize(w: Word) returns (r: Result<u64, AbiError>)
    ensures r == if Number(w) <= U64_MAX then Ok(Number(w)) else Err(Overflow)
  {
    UsizeBytes(w);
    if exists i :: 0 <= i < 24 && w[i] != 0 {
      return Err(Overflow);
    }
    r := Ok(Number(w[24..]));
  }

  /** The string behind an offset word: exactly the one stored there, if any. */
  method ReadString(data: Vec, at: u64) returns (r: Result<Bytes, AbiError>)
    ensures forall s :: r == Ok(s) <==> StringAt(data, at, s)
  {
    var lenWord :- WordAt(data, at / 32);
    if at % 32 != 0 {
      return Err(BadHex);
    }
    assert lenWord == data[at..at + 32];
    var len := BeUsize(lenWord);
    if len.Err? { return Err(len.error); }
    if at + 32 > U64_MAX || at + 32 + len.value > U64_MAX {
      return Err(Overflow);
    }
    var start, end := at + 32, at + 32 + len.value;
    if end > |data| {
      return Err(TooShort((end + 31) / 32, |data| / 32));
    }
    r := Ok(data[start..end]);
  }

  /** `decode_get_model`: succeeds exactly on data that holds a model, whatever the offset word says. */
  method DecodeGetModel(data: Vec, utf8: Bytes -> bool) returns (r: Result<ModelInfo, AbiError>)
    ensures forall m :: r == Ok(m) <==> ModelIn(data, m, utf8)
  {
    var w0 :- WordAt(data, 0);
    AddressWord(w0);
    if exists i :: 0 <= i < 12 && w0[i] != 0 {
      return Err(BadAddress);
    }
    var owner: Address := w0[12..];
    assert owner == data[12..32];
    var w4 :- WordAt(data, 4);
    assert w4 == data[128..160];
    var offset := BeUsize(w4);
    if offset.Err? { return Err(offset.error); }
    var w7 :- WordAt(data, 7);
    assert w7 == data[224..256];
    LowByte(w7);
    if exists i :: 0 <= i < 31 && w7[i] != 0 {
      return Err(BadBool);
    }
    if w7[31] > 1 {
      return Err(BadBool);
    }
    var cid := ReadString(data, offset.value);
    if cid.Err? { return Err(cid.error); }
    if !utf8(cid.value) {
      return Err(BadString);
    }
    r := Ok(ModelInfo(owner, cid.value, w7[31] == 1));
  }

  /** The Solidity return encoding of `getModel`'s eight values. */
  ghost function ModelArgs(owner: Address, name: Bytes, framework: Bytes, version: Bytes, cid: Bytes,
                           price: Word, inferences: Word, isActive: bool): Args
  {
    Cons(VWord(Zeros(12) + owner), Cons(VBytes(name), Cons(VBytes(framework), Cons(VBytes(version),
      Cons(VBytes(cid), Prepend([price, inferences, WordOf(if isActive then 1 else 0)], Nil))))))
  }

  lemma TailWhole(v: AbiValue)
    ensures |Tail(v)| % 32 == 0
  {
  }

  /** Where the fourth string sits in a list that starts with one word and three strings. */
  lemma FourthString(w: Word, name: Bytes, framework: Bytes, version: Bytes, rest: Args, data: Bytes)
    returns (offset: nat)
    requires LaidOut(Cons(VWord(w), Cons(VBytes(name), Cons(VBytes(framework), Cons(VBytes(version), rest)))),
                     0, 256, data)
    ensures |data| >= 32 && data[0..32] == w
    ensures offset % 32 == 0 && LaidOut(rest, 128, offset, data)
  {
    var third := Cons(VBytes(version), rest);
    var second := Cons(VBytes(framework), third);
    var o1 := SkipArgument(VBytes(name), second, 32, 256, data);
    var o2 := SkipArgument(VBytes(framework), third, 64, o1, data);
    offset := SkipArgument(VBytes(version), rest, 96, o2, data);
  }

  lemma SkipArgument(v: AbiValue, rest: Args, at: nat, offset: nat, data: Bytes) returns (offset': nat)
    requires LaidOut(Cons(v, rest), at, offset, data) && offset % 32 == 0
    ensures LaidOut(rest, at + 32, offset', data) && offset' % 32 == 0
  {
    offset' := offset + |Tail(v)|;
    LaidOutParts(Cons(v, rest), at, offset, data);
    TailWhole(v);
    SumWhole(offset, |Tail(v)|);
  }

  lemma SumWhole(a: nat, b: nat)
    requires a % 32 == 0 && b % 32 == 0
    ensures (a + b) % 32 == 0
  {
  }

  /** A dynamic argument that is laid out: its head is the offset, and the reference decoder reads it. */
  lemma ArgumentFromLayout(v: AbiValue, rest: Args, at: nat, offset: nat, data: Bytes)
    requires LaidOut(Cons(v, rest), at, offset, data) && |data| <= U128_MAX && !v.VWord?
    ensures at + 32 <= |data| && Number(data[at..at + 32]) == offset
    ensures DecodeOne(TypeOf(v), data, at) == Some(v)
    ensures LaidOut(rest, at + 32, offset + |Tail(v)|, data)
  {
    LaidOutParts(Cons(v, rest), at, offset, data);
    HeadInPlace(v, at, offset, data);
    OneInPlace(v, at, offset, data);
  }

  lemma HeadInPlace(v: AbiValue, at: nat, offset: nat, data: Bytes)
    requires InPlace(v, at, offset, data) && |data| <= U128_MAX && !v.VWord?
    ensures at + 32 <= |data| && Number(data[at..at + 32]) == offset
  {
    NumberOfWord(offset);
  }

  /** A string argument that is laid out can be read. */
  lemma StringFromLayout(s: Bytes, rest: Args, at: nat, offset: nat, data: Bytes)
    requires LaidOut(Cons(VBytes(s), rest), at, offset, data) && |data| <= U128_MAX && offset % 32 == 0
    ensures at + 32 <= |data| && StringAt(data, Number(data[at..at + 32]), s)
    ensures LaidOut(rest, at + 32, offset + |Tail(VBytes(s))|, data)
  {
    ArgumentFromLayout(VBytes(s), rest, at, offset, data);
    DecodedString(s, at, data);
  }

  /** What the reference decoder reads as a string is a string `StringAt` finds. */
  lemma DecodedString(s: Bytes, at: nat, data: Bytes)
    requires at + 32 <= |data| && Number(data[at..at + 32]) % 32 == 0
    requires DecodeOne(TBytes, data, at) == Some(VBytes(s))
    ensures StringAt(data, Number(data[at..at + 32]), s)
  {
  }

  lemma EncodingIsLaidOut(args: Args, offset: nat)
    requires offset == 32 * Length(args)
    ensures LaidOut(args, 0, offset, Encode(args)) && |Encode(args)| >= offset
  {
    EncodingLaidOut(args, 0, offset, Encode(args), Heads(args, offset), Tails(args));
  }

  /** Canonical return data decodes to the model it describes, for every string in it. */
  lemma ModelRoundTrip(owner: Address, name: Bytes, framework: Bytes, version: Bytes, cid: Bytes,
                       price: Word, inferences: Word, isActive: bool, utf8: Bytes -> bool)
    requires utf8(cid)
    requires |Encode(ModelArgs(owner, name, framework, version, cid, price, inferences, isActive))| <= U128_MAX
    ensures ModelIn(Encode(ModelArgs(owner, name, framework, version, cid, price, inferences, isActive)),
                    ModelInfo(owner, cid, isActive), utf8)
  {
    var flag := WordOf(if isActive then 1 else 0);
    var last := Prepend([price, inferences, flag], Nil);
    var fourth := Cons(VBytes(cid), last);
    var args := ModelArgs(owner, name, framework, version, cid, price, inferences, isActive);
    var data := Encode(args);
    ModelArgCount(name, framework, version, fourth, Zeros(12) + owner, [price, inferences, flag]);
    EncodingIsLaidOut(args, 256);
    var offset := FourthString(Zeros(12) + owner, name, framework, version, fourth, data);
    StringFromLayout(cid, last, 128, offset, data);
    LastWords([price, inferences, flag], 160, offset + |Tail(VBytes(cid))|, data);
    StoredModel(data, owner, cid, isActive, utf8);
  }

  /** The three places the decoder looks at are enough. */
  lemma StoredModel(data: Bytes, owner: Address, cid: Bytes, isActive: bool, utf8: Bytes -> bool)
    requires |data| >= 256 && utf8(cid) && data[0..32] == Zeros(12) + owner
    requires data[224..256] == WordOf(if isActive then 1 else 0)
    requires StringAt(data, Number(data[128..160]), cid)
    ensures ModelIn(data, ModelInfo(owner, cid, isActive), utf8)
  {
    NumberOfWord(if isActive then 1 else 0);
    ReadBackAddress(owner);
    assert data[0..32][12..] == data[12..32];
  }

  lemma ModelArgCount(name: Bytes, framework: Bytes, version: Bytes, fourth: Args, w: Word, ws: seq<Word>)
    requires fourth.Cons? && fourth.tail == Prepend(ws, Nil) && |ws| == 3
    ensures Length(Cons(VWord(w), Cons(VBytes(name), Cons(VBytes(framework), Cons(VBytes(version), fourth))))) == 8
  {
    PrependTails(ws, Nil);
    assert Length(fourth) == 4;
    assert Length(Cons(VBytes(framework), Cons(VBytes(version), fourth))) == 6;
  }

  lemma LastWords(ws: seq<Word>, at: nat, offset: nat, data: Bytes)
    requires |ws| == 3 && LaidOut(Prepend(ws, Nil), at, offset, data)
    ensures at + 96 <= |data| && data[at + 64..at + 96] == ws[2]
  {
    var one, two := Prepend(ws[1..], Nil), Prepend(ws[2..], Nil);
    assert ws[1..][1..] == ws[2..] && ws[2..][0] == ws[2];
    assert LaidOut(one, at + 32, offset, data);
    assert LaidOut(two, at + 64, offset, data);
  }
}
