/** The agent's hand-written ABI codec: word encoders, the dynamic `bytes` tail, the reading
    cursor, and `0x` hex. Each encoder is checked against `AbiSpec`. */
module Abi {
  import opened Prelude
  import opened AbiSpec

  datatype AbiError =
    | TooShort(need: nat, got: nat)
    | Overflow
    | BadBool
    | BadAddress
    | BadHex
    | BadString

  // ---- what a word's leading zero bytes say about its value ----

  lemma {:induction false} NumberOfConcat(a: Bytes, b: Bytes)
    ensures Number(a + b) == Number(a) * Pow256(|b|) + Number(b)
  {
    if b == [] {
      assert a + b == a;
    } else {
      var b', last := b[..|b| - 1], b[|b| - 1];
      NumberOfConcat(a, b');
      assert (a + b)[..|a + b| - 1] == a + b';
      Distribute(Number(a), Pow256(|b'|), Number(b'), last);
    }
  }

  lemma Distribute(x: int, p: int, y: int, d: int)
    ensures (x * p + y) * 256 + d == x * (256 * p) + (y * 256 + d)
  {
    assert (x * p) * 256 == x * (256 * p);
  }

  lemma {:induction false} ZeroNumber(a: Bytes)
    ensures Number(a) == 0 <==> a == Zeros(|a|)
  {
    if a != [] {
      var a' := a[..|a| - 1];
      ZeroNumber(a');
      assert a == a' + [a[|a| - 1]];
      if a == Zeros(|a|) {
        assert a' == Zeros(|a'|);
      }
    }
  }

  /** The first `k` bytes are zero exactly when the rest spells the whole number. */
  lemma LeadingZeros(w: Bytes, k: nat)
    requires k <= |w|
    ensures (forall i :: 0 <= i < k ==> w[i] == 0) <==> Number(w) < Pow256(|w| - k)
    ensures (forall i :: 0 <= i < k ==> w[i] == 0) ==> Number(w) == Number(w[k..])
  {
    var a, b := w[..k], w[k..];
    assert w == a + b;
    NumberOfConcat(a, b);
    BigEndianOfNumber(b);
    HighPart(a, Number(b), Pow256(|b|));
    assert (forall i :: 0 <= i < k ==> w[i] == 0) <==> a == Zeros(k);
  }

  lemma HighPart(a: Bytes, low: nat, p: nat)
    requires low < p
    ensures a == Zeros(|a|) <==> Number(a) * p + low < p
    ensures a == Zeros(|a|) ==> Number(a) * p + low == low
  {
    ZeroNumber(a);
    if Number(a) > 0 {
      AtLeast(Number(a), p);
    }
  }

  lemma AtLeast(x: nat, p: nat)
    requires x > 0
    ensures x * p >= p
  {
    assert x * p == p + (x - 1) * p;
  }

  /** Addresses are 160-bit numbers. */
  const ADDRESS_LIMIT: nat := (U128_MAX + 1) * 0x1_0000_0000

  lemma AddressWidth()
    ensures Pow256(20) == ADDRESS_LIMIT
  {
    U128Width();
    assert Pow256(20) == 256 * (256 * (256 * (256 * Pow256(16))));
  }

  // ---- encoders ----

  /** `word_from_u128`: the word that spells `v`. */
  method WordFromU128(v: u128) returns (w: Word)
    ensures w == WordOf(v)
  {
    w := Zeros(16) + BigEndian(v, 16);
    U128Width();
    NumberIgnoresLeadingZeros(16, BigEndian(v, 16));
    NumberOfBigEndian(v, 16);
    NumberOfWord(v);
    NumberInjective(w, WordOf(v));
  }

  /** `word_from_address`: the word whose low 20 bytes are `a` and whose value is the address. */
  method WordFromAddress(a: Address) returns (w: Word)
    ensures w[12..] == a && Number(w) == Number(a)
  {
    w := Zeros(12) + a;
    NumberIgnoresLeadingZeros(12, a);
  }

  lemma {:induction false} ConcatAppend(ws: seq<Word>, w: Word)
    ensures Concat(ws + [w]) == Concat(ws) + w
  {
    if ws == [] {
      assert [w][1..] == [];
    } else {
      ConcatAppend(ws[1..], w);
      assert (ws + [w])[1..] == ws[1..] + [w];
    }
  }

  /** `encode_call`: a selector and the argument words. */
  method EncodeCall(selector: Bytes, args: seq<Word>) returns (out: Bytes)
    ensures out == selector + Concat(args)
  {
    out := selector;
    for i := 0 to |args|
      invariant out == selector + Concat(args[..i])
    {
      out := out + args[i];
      ConcatAppend(args[..i], args[i]);
      assert args[..i + 1] == args[..i] + [args[i]];
    }
    assert args[..|args|] == args;
  }

  /** `encode_bytes_tail`: exactly the tail the ABI gives a `bytes` value. */
  method EncodeBytesTail(bytes: Vec) returns (out: Bytes)
    ensures out == Tail(VBytes(bytes))
  {
    var padded := (|bytes| + 31) / 32 * 32;
    out := WordFromU128(|bytes|);
    out := out + bytes;
    out := out + Zeros(32 + padded - |out|);
  }

  // ---- reading a word at a position ----

  function ReadWord(data: Bytes, at: nat): Result<Word, AbiError> {
    if at + 32 > |data| then Err(TooShort((at + 32 + 31) / 32, |data| / 32))
    else Ok(data[at..at + 32])
  }

  /** A `uint256` narrowed to `u128`: its value, when it has one. */
  function ToU128(w: Word): Result<u128, AbiError> {
    if Number(w) <= U128_MAX then Ok(Number(w)) else Err(Overflow)
  }

  function ToBool(w: Word): Result<bool, AbiError> {
    if Number(w) <= 1 then Ok(Number(w) == 1) else Err(BadBool)
  }

  function ToAddress(w: Word): Result<Address, AbiError> {
    if Number(w) < ADDRESS_LIMIT then Ok(w[12..]) else Err(BadAddress)
  }

  function ToU8(w: Word): Result<byte, AbiError> {
    if Number(w) < 0x100 then Ok(Number(w)) else Err(Overflow)
  }

  function ReadU128(data: Bytes, at: nat): Result<u128, AbiError> {
    var w :- ReadWord(data, at);
    ToU128(w)
  }

  function ReadBool(data: Bytes, at: nat): Result<bool, AbiError> {
    var w :- ReadWord(data, at);
    ToBool(w)
  }

  function ReadAddress(data: Bytes, at: nat): Result<Address, AbiError> {
    var w :- ReadWord(data, at);
    ToAddress(w)
  }

  function ReadU8(data: Bytes, at: nat): Result<byte, AbiError> {
    var w :- ReadWord(data, at);
    ToU8(w)
  }

  /** A cursor over return data. Every read takes the next word; a read that finds too few bytes
      leaves the cursor, one that finds a word it rejects has consumed it. */
  class Decoder {
    const data: Bytes
    var offset: nat

    constructor (data: Bytes)
      ensures this.data == data && offset == 0
    {
      this.data := data;
      offset := 0;
    }

    function After(at: nat): nat {
      if ReadWord(data, at).Ok? then at + 32 else at
    }

    method Word() returns (r: Result<Word, AbiError>)
      modifies this
      ensures r == ReadWord(data, old(offset)) && offset == After(old(offset))
    {
      var end := offset + 32;
      if end > |data| {
        return Err(TooShort((end + 31) / 32, |data| / 32));
      }
      r := Ok(data[offset..end]);
      offset := end;
    }

    method U128() returns (r: Result<u128, AbiError>)
      modifies this
      ensures r == ReadU128(data, old(offset)) && offset == After(old(offset))
    {
      var w :- Word();
      LeadingZeros(w, 16);
      U128Width();
      if exists i :: 0 <= i < 16 && w[i] != 0 {
        return Err(Overflow);
      }
      r := Ok(Number(w[16..]));
    }

    method Bool() returns (r: Result<bool, AbiError>)
      modifies this
      ensures r == ReadBool(data, old(offset)) && offset == After(old(offset))
    {
      var w :- Word();
      LowByte(w);
      if exists i :: 0 <= i < 31 && w[i] != 0 {
        return Err(BadBool);
      }
      r := if w[31] == 0 then Ok(false) else if w[31] == 1 then Ok(true) else Err(BadBool);
    }

    method Address() returns (r: Result<Address, AbiError>)
      modifies this
      ensures r == ReadAddress(data, old(offset)) && offset == After(old(offset))
    {
      var w :- Word();
      AddressWord(w);
      if exists i :: 0 <= i < 12 && w[i] != 0 {
        return Err(BadAddress);
      }
      r := Ok(w[12..]);
    }

    method U8Enum() returns (r: Result<byte, AbiError>)
      modifies this
      ensures r == ReadU8(data, old(offset)) && offset == After(old(offset))
    {
      var w :- Word();
      LowByte(w);
      if exists i :: 0 <= i < 31 && w[i] != 0 {
        return Err(Overflow);
      }
      r := Ok(w[31]);
    }
  }

  lemma AddressWord(w: Word)
    ensures (forall i :: 0 <= i < 12 ==> w[i] == 0) <==> Number(w) < ADDRESS_LIMIT
  {
    AddressWidth();
    LeadingZeros(w, 12);
  }

  lemma LowByte(w: Word)
    ensures (forall i :: 0 <= i < 31 ==> w[i] == 0) <==> Number(w) < 0x100
    ensures (forall i :: 0 <= i < 31 ==> w[i] == 0) ==> Number(w) == w[31]
  {
    LeadingZeros(w, 31);
    assert Pow256(1) == 256;
    assert w[31..] == [w[31]];
    assert w[31..][..0] == [];
  }

  lemma UsizeBytes(w: Word)
    ensures (forall i :: 0 <= i < 24 ==> w[i] == 0) <==> Number(w) <= U64_MAX
    ensures (forall i :: 0 <= i < 24 ==> w[i] == 0) ==> Number(w) == Number(w[24..])
  {
    LeadingZeros(w, 24);
    U64Width();
  }

  lemma LowEightBytes(w: Word)
    requires Number(w) <= U64_MAX
    ensures Number(w[24..]) == Number(w)
  {
    UsizeBytes(w);
  }

  /** A word is narrowed to a value exactly when it spells that value: no bit is dropped. */
  lemma NarrowingIsExact(w: Word)
    ensures forall v: u128 :: ToU128(w) == Ok(v) <==> Number(w) == v
    ensures forall v: byte :: ToU8(w) == Ok(v) <==> Number(w) == v
    ensures ToBool(w) == Ok(false) <==> Number(w) == 0
    ensures ToBool(w) == Ok(true) <==> Number(w) == 1
    ensures forall a: Address :: ToAddress(w) == Ok(a) <==> Number(w) == Number(a)
  {
    AddressWidth();
    LeadingZeros(w, 12);
    forall a: Address
      ensures ToAddress(w) == Ok(a) <==> Number(w) == Number(a)
    {
      BigEndianOfNumber(a);
      if Number(w) == Number(a) {
        NumberInjective(w[12..], a);
      }
    }
  }

  // ---- what the encoders wrote, the readers return ----

  lemma ReadBackU128(v: u128)
    ensures ToU128(WordOf(v)) == Ok(v)
  {
    NumberOfWord(v);
  }

  lemma ReadBackAddress(a: Address)
    ensures ToAddress(Zeros(12) + a) == Ok(a)
  {
    NumberIgnoresLeadingZeros(12, a);
    BigEndianOfNumber(a);
    AddressWidth();
  }

  // ---- hex ----

  const HEX_DIGITS := "0123456789abcdef"

  /** Two lowercase digits a byte, high nibble first. */
  function HexOf(b: Bytes): (s: string)
    ensures |s| == 2 * |b|
  {
    seq(2 * |b|, k requires 0 <= k < 2 * |b| =>
      HEX_DIGITS[if k % 2 == 0 then b[k / 2] / 16 else b[k / 2] % 16])
  }

  function Lower(s: string): (t: string)
    ensures |t| == |s|
  {
    seq(|s|, k requires 0 <= k < |s| => LowerDigit(s[k]))
  }

  function LowerDigit(c: char): char {
    if 'A' <= c <= 'F' then c - 'A' + 'a' else c
  }

  /** The value of a hex digit of either case. */
  function Nibble(c: char): (n: Option<byte>)
    ensures n.Some? ==> n.value < 16 && HEX_DIGITS[n.value] == LowerDigit(c)
    ensures n.None? ==> LowerDigit(c) !in HEX_DIGITS
  {
    if '0' <= c <= '9' then Some(c as int - '0' as int)
    else if 'a' <= c <= 'f' then Some(c as int - 'a' as int + 10)
    else if 'A' <= c <= 'F' then Some(c as int - 'A' as int + 10)
    else None
  }

  method HexEncode(bytes: Bytes) returns (s: string)
    ensures s == "0x" + HexOf(bytes)
  {
    s := "0x";
    for i := 0 to |bytes|
      invariant |s| == 2 + 2 * i && s[..2] == "0x"
      invariant forall k :: 0 <= k < 2 * i ==> s[2 + k] == HexOf(bytes)[k]
    {
      s := s + [HEX_DIGITS[bytes[i] / 16]] + [HEX_DIGITS[bytes[i] % 16]];
    }
    assert s == s[..2] + s[2..];
    assert s[2..] == HexOf(bytes);
  }

  /** `s` is `0x` and the digits of `b` in any mixture of cases. */
  ghost predicate HexSpells(s: string, b: Bytes) {
    |s| >= 2 && s[..2] == "0x" && Lower(s[2..]) == HexOf(b)
  }

  /** `r` is what `s` decodes to: the bytes it spells, or `BadHex` if it spells none. */
  ghost predicate HexDecodesTo(s: string, r: Result<Bytes, AbiError>) {
    (forall b :: r == Ok(b) <==> HexSpells(s, b)) && (r.Err? ==> r.error == BadHex)
  }

  /** `hex_decode`: accepts exactly the strings that spell some bytes, and returns those bytes. */
  method HexDecode(s: string) returns (r: Result<Bytes, AbiError>)
    ensures HexDecodesTo(s, r)
  {
    if |s| < 2 || s[..2] != "0x" || |s| % 2 != 0 {
      BadShape(s);
      return Err(BadHex);
    }
    var t := s[2..];
    var out: Bytes := [];
    for i := 0 to |t| / 2
      invariant |out| == i && SpellsPrefix(t, out)
    {
      var hi, lo := Nibble(t[2 * i]), Nibble(t[2 * i + 1]);
      if hi.None? || lo.None? {
        NotHex(s, 2 + (if hi.None? then 2 * i else 2 * i + 1));
        return Err(BadHex);
      }
      ghost var before := out;
      out := out + [hi.value * 16 + lo.value];
      SpellsNext(t, before, hi.value, lo.value, out);
    }
    SpellsOnly(s, out);
    r := Ok(out);
  }

  /** The first digits of `t` are those of `out`. */
  ghost predicate SpellsPrefix(t: string, out: Bytes) {
    && 2 * |out| <= |t|
    && forall i :: 0 <= i < |out| ==>
         LowerDigit(t[2 * i]) == HEX_DIGITS[out[i] / 16] && LowerDigit(t[2 * i + 1]) == HEX_DIGITS[out[i] % 16]
  }

  lemma SpellsNext(t: string, out: Bytes, hi: byte, lo: byte, out': Bytes)
    requires SpellsPrefix(t, out) && 2 * |out| + 2 <= |t| && hi < 16 && lo < 16
    requires LowerDigit(t[2 * |out|]) == HEX_DIGITS[hi] && LowerDigit(t[2 * |out| + 1]) == HEX_DIGITS[lo]
    requires out' == out + [hi * 16 + lo]
    ensures SpellsPrefix(t, out')
  {
    assert out'[|out|] / 16 == hi && out'[|out|] % 16 == lo;
    assert forall i :: 0 <= i < |out| ==> out'[i] == out[i];
  }

  lemma SpellsWhole(t: string, out: Bytes)
    requires |t| == 2 * |out| && SpellsPrefix(t, out)
    ensures Lower(t) == HexOf(out)
  {
    forall k | 0 <= k < |t|
      ensures LowerDigit(t[k]) == HexOf(out)[k]
    {
      var i := k / 2;
      assert k == 2 * i || k == 2 * i + 1;
      SpellsAt(t, out, i);
    }
  }

  lemma SpellsAt(t: string, out: Bytes, i: nat)
    requires i < |out| && SpellsPrefix(t, out)
    ensures LowerDigit(t[2 * i]) == HexOf(out)[2 * i] && LowerDigit(t[2 * i + 1]) == HexOf(out)[2 * i + 1]
  {
    HexAt(out, i);
  }

  lemma SpellsOnly(s: string, out: Bytes)
    requires |s| == 2 + 2 * |out| && s[..2] == "0x" && SpellsPrefix(s[2..], out)
    ensures HexDecodesTo(s, Ok(out))
  {
    SpellsWhole(s[2..], out);
    forall b | HexOf(b) == HexOf(out)
      ensures b == out
    {
      HexInjective(b, out);
    }
  }

  lemma BadShape(s: string)
    requires |s| < 2 || s[..2] != "0x" || |s| % 2 != 0
    ensures HexDecodesTo(s, Err(BadHex))
  {
    if |s| >= 2 {
      assert |Lower(s[2..])| == |s| - 2;
    }
  }

  lemma NotHex(s: string, k: nat)
    requires 2 <= k < |s| && LowerDigit(s[k]) !in HEX_DIGITS
    ensures HexDecodesTo(s, Err(BadHex))
  {
    forall b
      ensures !HexSpells(s, b)
    {
      if |s| == 2 + 2 * |b| {
        assert HexOf(b)[k - 2] in HEX_DIGITS;
        assert Lower(s[2..])[k - 2] == LowerDigit(s[k]);
      }
    }
  }

  lemma HexInjective(a: Bytes, b: Bytes)
    requires HexOf(a) == HexOf(b)
    ensures a == b
  {
    assert |HexOf(a)| == |HexOf(b)|;
    forall i | 0 <= i < |a|
      ensures a[i] == b[i]
    {
      HexAt(a, i);
      HexAt(b, i);
      DigitInjective(a[i] / 16, b[i] / 16);
      DigitInjective(a[i] % 16, b[i] % 16);
    }
  }

  lemma HexAt(b: Bytes, i: nat)
    requires i < |b|
    ensures HexOf(b)[2 * i] == HEX_DIGITS[b[i] / 16]
    ensures HexOf(b)[2 * i + 1] == HEX_DIGITS[b[i] % 16]
  {
  }

  lemma DigitInjective(x: nat, y: nat)
    requires x < 16 && y < 16 && HEX_DIGITS[x] == HEX_DIGITS[y]
    ensures x == y
  {
    assert forall k :: 0 <= k < 10 ==> HEX_DIGITS[k] == '0' + k as char;
    assert forall k :: 10 <= k < 16 ==> HEX_DIGITS[k] == 'a' + (k - 10) as char;
  }

  /** Decoding a string the agent encoded returns the bytes it encoded. */
  lemma HexSpellsItself(b: Bytes)
    ensures HexSpells("0x" + HexOf(b), b)
  {
    assert forall k :: 0 <= k < 16 ==> LowerDigit(HEX_DIGITS[k]) == HEX_DIGITS[k];
    assert ("0x" + HexOf(b))[2..] == HexOf(b);
    assert Lower(HexOf(b)) == HexOf(b);
  }
}
