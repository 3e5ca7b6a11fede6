/** The Solidity Contract ABI, written from its "Formal Specification of the Encoding":
    an argument list is encoded as all heads followed by all tails; the head of a dynamic
    argument is the offset of its tail from the start of the argument block. This is the
    reference the agent's hand-written encoders are checked against. */
module AbiSpec {
  import opened Prelude

  datatype AbiType = TWord | TBytes | TWords

  /** A 32-byte static value, a `bytes`, or a `bytes32[]`. */
  datatype AbiValue = VWord(w: Word) | VBytes(b: Bytes) | VWords(ws: seq<Word>)

  datatype List<T> = Nil | Cons(head: T, tail: List<T>)

  type Args = List<AbiValue>
  type Types = List<AbiType>

  function Length<T>(l: List<T>): nat {
    match l
    case Nil => 0
    case Cons(_, rest) => 1 + Length(rest)
  }

  function TypeOf(v: AbiValue): AbiType {
    match v
    case VWord(_) => TWord
    case VBytes(_) => TBytes
    case VWords(_) => TWords
  }

  function TypesOf(args: Args): Types {
    match args
    case Nil => Nil
    case Cons(v, rest) => Cons(TypeOf(v), TypesOf(rest))
  }

  /** `n` rounded up to whole words. */
  function Padded(n: nat): nat {
    (n + 31) / 32 * 32
  }

  function Concat(ws: seq<Word>): (b: Bytes)
    ensures |b| == 32 * |ws|
  {
    if ws == [] then [] else ws[0] + Concat(ws[1..])
  }

  ghost function Tail(v: AbiValue): Bytes {
    match v
    case VWord(_) => []
    case VBytes(b) => WordOf(|b|) + b + Zeros(Padded(|b|) - |b|)
    case VWords(ws) => WordOf(|ws|) + Concat(ws)
  }

  ghost function Head(v: AbiValue, offset: nat): Word {
    if v.VWord? then v.w else WordOf(offset)
  }

  /** Heads of `args` when the first dynamic tail starts at `offset`. */
  ghost function Heads(args: Args, offset: nat): (h: Bytes)
    ensures |h| == 32 * Length(args)
  {
    match args
    case Nil => []
    case Cons(v, rest) => Head(v, offset) + Heads(rest, offset + |Tail(v)|)
  }

  ghost function Tails(args: Args): Bytes {
    match args
    case Nil => []
    case Cons(v, rest) => Tail(v) + Tails(rest)
  }

  ghost function Encode(args: Args): Bytes {
    Heads(args, 32 * Length(args)) + Tails(args)
  }

  // ---- decoding ----

  function Words(data: Bytes, at: nat, n: nat): (ws: seq<Word>)
    requires at + 32 * n <= |data|
    decreases n
  {
    if n == 0 then [] else [data[at..at + 32]] + Words(data, at + 32, n - 1)
  }

  function DecodeOne(t: AbiType, data: Bytes, at: nat): Option<AbiValue> {
    if at + 32 > |data| then None
    else if t.TWord? then Some(VWord(data[at..at + 32]))
    else
      var offset := Number(data[at..at + 32]);
      if offset + 32 > |data| then None else
        var count := Number(data[offset..offset + 32]);
        if t.TBytes? then
          if offset + 32 + Padded(count) > |data| then None
          else Some(VBytes(data[offset + 32..offset + 32 + count]))
        else
          if offset + 32 + 32 * count > |data| then None
          else Some(VWords(Words(data, offset + 32, count)))
  }

  function DecodeFrom(types: Types, data: Bytes, at: nat): Option<Args>
    decreases types
  {
    match types
    case Nil => Some(Nil)
    case Cons(t, rest) =>
      match DecodeOne(t, data, at)
      case None => None
      case Some(v) =>
        match DecodeFrom(rest, data, at + 32)
        case None => None
        case Some(vs) => Some(Cons(v, vs))
  }

  function Decode(types: Types, data: Bytes): Option<Args> {
    DecodeFrom(types, data, 0)
  }

  // ---- the round trip ----

  lemma {:induction false} WordsOfConcat(pre: Bytes, ws: seq<Word>, post: Bytes, data: Bytes)
    requires data == pre + Concat(ws) + post
    ensures Words(data, |pre|, |ws|) == ws
    decreases |ws|
  {
    if ws != [] {
      assert data == (pre + ws[0]) + Concat(ws[1..]) + post;
      WordsOfConcat(pre + ws[0], ws[1..], post, data);
      assert data[|pre|..|pre| + 32] == ws[0];
    }
  }

  /** A head that points at `pre`'s end, where a count and then the padded payload are stored. */
  lemma BytesInPlace(b: Bytes, pre: Bytes, len: Bytes, pad: Bytes, post: Bytes, at: nat, data: Bytes)
    requires data == pre + (len + b + pad) + post
    requires |len| == 32 && Number(len) == |b| && |pad| == Padded(|b|) - |b|
    requires at + 32 <= |data| && Number(data[at..at + 32]) == |pre|
    ensures DecodeOne(TBytes, data, at) == Some(VBytes(b))
  {
    Regroup5(pre, len, b, pad, post);
    Middle(pre, len, b + pad + post);
    Middle(pre + len, b, pad + post);
  }

  lemma WordsInPlace(ws: seq<Word>, pre: Bytes, len: Bytes, post: Bytes, at: nat, data: Bytes)
    requires data == pre + (len + Concat(ws)) + post
    requires |len| == 32 && Number(len) == |ws|
    requires at + 32 <= |data| && Number(data[at..at + 32]) == |pre|
    ensures DecodeOne(TWords, data, at) == Some(VWords(ws))
  {
    Regroup4(pre, len, Concat(ws), post);
    Middle(pre, len, Concat(ws) + post);
    WordsOfConcat(pre + len, ws, post, data);
  }

  /** One argument decodes wherever its head and tail sit. */
  lemma OneInPlace(v: AbiValue, at: nat, offset: nat, data: Bytes)
    requires |data| <= U128_MAX && at + 32 <= |data| && offset <= |data|
    requires data[at..at + 32] == Head(v, offset)
    requires Tail(v) <= data[offset..]
    ensures DecodeOne(TypeOf(v), data, at) == Some(v)
  {
    var pre, post := data[..offset], data[offset + |Tail(v)|..];
    assert data == pre + Tail(v) + post by {
      Reassemble(data, offset, Tail(v));
    }
    match v {
      case VWord(_) =>
      case VBytes(b) =>
        NumberOfWord(|pre|);
        NumberOfWord(|b|);
        BytesInPlace(b, pre, WordOf(|b|), Zeros(Padded(|b|) - |b|), post, at, data);
      case VWords(ws) =>
        NumberOfWord(|pre|);
        NumberOfWord(|ws|);
        WordsInPlace(ws, pre, WordOf(|ws|), post, at, data);
    }
  }

  lemma Reassemble<T>(data: seq<T>, at: nat, mid: seq<T>)
    requires at <= |data| && mid <= data[at..]
    ensures data == data[..at] + mid + data[at + |mid|..]
  {
  }

  ghost predicate InPlace(v: AbiValue, at: nat, offset: nat, data: Bytes) {
    && at + 32 <= |data| && data[at..at + 32] == Head(v, offset)
    && offset <= |data| && Tail(v) <= data[offset..]
  }

  /** Each head is where the next head is read and each tail where its head says. */
  ghost predicate LaidOut(args: Args, at: nat, offset: nat, data: Bytes) {
    args.Nil? || (InPlace(args.head, at, offset, data) && LaidOut(args.tail, at + 32, offset + |Tail(args.head)|, data))
  }

  lemma LaidOutParts(args: Args, at: nat, offset: nat, data: Bytes)
    requires LaidOut(args, at, offset, data) && args.Cons?
    ensures InPlace(args.head, at, offset, data)
    ensures LaidOut(args.tail, at + 32, offset + |Tail(args.head)|, data)
  {
  }

  lemma {:induction false} LaidOutDecodes(args: Args, at: nat, offset: nat, data: Bytes)
    requires LaidOut(args, at, offset, data) && |data| <= U128_MAX
    ensures DecodeFrom(TypesOf(args), data, at) == Some(args)
    decreases args
  {
    match args {
      case Nil =>
      case Cons(v, rest) =>
        OneInPlace(v, at, offset, data);
        LaidOutDecodes(rest, at + 32, offset + |Tail(v)|, data);
    }
  }

  lemma {:induction false} EncodingLaidOut(args: Args, at: nat, offset: nat, data: Bytes, heads: Bytes, tails: Bytes)
    requires heads == Heads(args, offset) && tails == Tails(args)
    requires at <= |data| && heads <= data[at..]
    requires offset <= |data| && data[offset..] == tails
    ensures LaidOut(args, at, offset, data)
    decreases args
  {
    match args {
      case Nil =>
      case Cons(v, rest) =>
        var head, tail := Head(v, offset), Tail(v);
        var offset' := offset + |tail|;
        var heads', tails' := Heads(rest, offset'), Tails(rest);
        Prefixes(data, at, head, heads');
        Suffixes(data, offset, tail, tails');
        EncodingLaidOut(rest, at + 32, offset', data, heads', tails');
    }
  }

  lemma Prefixes<T>(data: seq<T>, at: nat, a: seq<T>, b: seq<T>)
    requires at <= |data| && a + b <= data[at..]
    ensures at + |a| <= |data| && data[at..at + |a|] == a && b <= data[at + |a|..]
  {
    assert data[at..][..|a|] == (a + b)[..|a|];
  }

  lemma Suffixes<T>(data: seq<T>, at: nat, a: seq<T>, b: seq<T>)
    requires at <= |data| && data[at..] == a + b
    ensures at + |a| <= |data| && a <= data[at..] && data[at + |a|..] == b
  {
    assert data[at..][|a|..] == data[at + |a|..];
  }

  /** Decoding undoes encoding for every argument list a 128-bit offset can address. */
  lemma DecodeEncode(args: Args)
    requires |Encode(args)| <= U128_MAX
    ensures Decode(TypesOf(args), Encode(args)) == Some(args)
  {
    var offset, data := 32 * Length(args), Encode(args);
    EncodingLaidOut(args, 0, offset, data, Heads(args, offset), Tails(args));
    LaidOutDecodes(args, 0, offset, data);
  }
}
