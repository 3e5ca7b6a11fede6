/** Lowercase unpadded base32 (RFC 4648, sections 6 and 3.5), and the proof that the accumulator
    loop in `models.rs` decodes exactly the canonical encodings. Strings are their bytes. */
module Base32 {
  import opened Prelude

  /** a-z, then 2-7. */
  function Symbol(v: nat): byte
    requires v < 32
  {
    if v < 26 then 'a' as int + v else '2' as int + v - 26
  }

  function ValueOf(c: byte): (v: Option<nat>)
    ensures v.Some? ==> v.value < 32 && Symbol(v.value) == c
    ensures v.None? ==> forall k :: 0 <= k < 32 ==> Symbol(k) != c
  {
    if 'a' as int <= c <= 'z' as int then Some(c - 'a' as int)
    else if '2' as int <= c <= '7' as int then Some(c - '2' as int + 26)
    else None
  }

  lemma Alphabet(v: nat)
    requires v < 32
    ensures Symbol(v) == "abcdefghijklmnopqrstuvwxyz234567"[v] as int
  {
    if v < 26 {
      assert "abcdefghijklmnopqrstuvwxyz"[v] == 'a' + v as char;
    } else {
      assert "234567"[v - 26] == '2' + (v - 26) as char;
    }
  }

  // ---- shifts ----

  /** `x << k` */
  function Shl(x: nat, k: nat): nat {
    if k == 0 then x else 2 * Shl(x, k - 1)
  }

  /** `x >> k` */
  function Shr(x: nat, k: nat): nat {
    if k == 0 then x else Shr(x, k - 1) / 2
  }

  /** `x & ((1 << k) - 1)`: the bits of `x` below bit `k`. */
  function Low(x: nat, k: nat): nat {
    if k == 0 then 0 else Low(x, k - 1) + Shl(Shr(x, k - 1) % 2, k - 1)
  }

  lemma {:induction false} ShlAdd(x: nat, y: nat, k: nat)
    ensures Shl(x + y, k) == Shl(x, k) + Shl(y, k)
  {
    if k > 0 {
      ShlAdd(x, y, k - 1);
    }
  }

  lemma {:induction false} ShlShl(x: nat, j: nat, k: nat)
    ensures Shl(Shl(x, j), k) == Shl(x, j + k)
  {
    if k > 0 {
      ShlShl(x, j, k - 1);
    }
  }

  lemma ShlGrows(d: nat, k: nat)
    requires d > 0
    ensures Shl(d, k) >= Shl(1, k)
  {
    ShlAdd(1, d - 1, k);
  }

  lemma {:induction false} OnePositive(k: nat)
    ensures Shl(1, k) > 0
  {
    if k > 0 {
      OnePositive(k - 1);
    }
  }

  lemma ShlFive(x: nat, k: nat)
    ensures Shl(x, k + 5) == 32 * Shl(x, k)
  {
    assert Shl(x, k + 2) == 2 * Shl(x, k + 1);
    assert Shl(x, k + 4) == 2 * Shl(x, k + 3);
  }

  lemma ShlEight(x: nat, k: nat)
    ensures Shl(x, k + 8) == Shl(256 * x, k)
  {
    ShlFive(x, 0);
    assert Shl(x, 7) == 4 * Shl(x, 5);
    ShlShl(x, 8, k);
  }

  /** A number is its high part and its low bits. */
  lemma {:induction false} ShiftSplit(x: nat, k: nat)
    ensures x == Shl(Shr(x, k), k) + Low(x, k) && Low(x, k) < Shl(1, k)
  {
    if k > 0 {
      ShiftSplit(x, k - 1);
      var y := Shr(x, k - 1);
      ShlAdd(y / 2, y / 2, k - 1);
      ShlAdd(2 * (y / 2), y % 2, k - 1);
      BitShl(y % 2, k - 1);
    }
  }

  lemma BitShl(bit: nat, k: nat)
    requires bit <= 1
    ensures Shl(bit, k) <= Shl(1, k)
  {
    ShlAdd(bit, 1 - bit, k);
  }

  // ---- the encoding, as the RFC describes it ----

  /** Bit `j` of the stream, most significant bit of each byte first, zero bits added on the right. */
  function Bit(b: Bytes, j: nat): (r: nat)
    ensures r <= 1
  {
    if j / 8 < |b| then Shr(b[j / 8], 7 - j % 8) % 2 else 0
  }

  /** The `i`-th group of five bits. */
  function Group(b: Bytes, i: nat): (v: nat)
    ensures v < 32
  {
    16 * Bit(b, 5 * i) + 8 * Bit(b, 5 * i + 1) + 4 * Bit(b, 5 * i + 2) + 2 * Bit(b, 5 * i + 3) + Bit(b, 5 * i + 4)
  }

  /** Number of five-bit groups that cover the bits of `n` bytes. */
  function Groups(n: nat): nat {
    (8 * n + 4) / 5
  }

  function Encode(b: Bytes): (s: Bytes)
    ensures |s| == Groups(|b|)
  {
    seq(Groups(|b|), i requires 0 <= i < Groups(|b|) => Symbol(Group(b, i)))
  }

  // ---- bit streams as numbers ----

  function BitsValue(b: Bytes, m: nat): nat {
    if m == 0 then 0 else 2 * BitsValue(b, m - 1) + Bit(b, m - 1)
  }

  /** The number the symbols of `s` spell in base 32; none if a byte is outside the alphabet. */
  function Spelled(s: Bytes): Option<nat> {
    if |s| == 0 then Some(0)
    else
      match (Spelled(s[..|s| - 1]), ValueOf(s[|s| - 1]))
      case (Some(n), Some(v)) => Some(n * 32 + v)
      case _ => None
  }

  lemma {:induction false} ShrBound(x: byte, k: nat)
    requires k <= 8
    ensures Shr(x, k) < Shl(1, 8 - k)
  {
    if k > 0 {
      ShrBound(x, k - 1);
    }
  }

  lemma BitOfByte(b: Bytes, k: nat, j: nat)
    requires k < |b| && j < 8
    ensures Bit(b, 8 * k + j) == Shr(b[k], 7 - j) % 2
  {
    assert (8 * k + j) / 8 == k && (8 * k + j) % 8 == j;
  }

  lemma {:induction false} TopBits(b: Bytes, k: nat, j: nat)
    requires k < |b| && j <= 8
    ensures BitsValue(b, 8 * k + j) == Shl(BitsValue(b, 8 * k), j) + Shr(b[k], 8 - j)
  {
    if j == 0 {
      ShrBound(b[k], 8);
    } else {
      TopBits(b, k, j - 1);
      BitOfByte(b, k, j - 1);
      var y := Shr(b[k], 8 - j);
      assert Shr(b[k], 9 - j) == y / 2;
    }
  }

  lemma FiveBits(b: Bytes, i: nat)
    ensures BitsValue(b, 5 * i + 5) == 32 * BitsValue(b, 5 * i) + Group(b, i)
  {
    TwoBits(b, 5 * i);
    TwoBits(b, 5 * i + 2);
    assert BitsValue(b, 5 * i + 5) == 2 * BitsValue(b, 5 * i + 4) + Bit(b, 5 * i + 4);
  }

  lemma TwoBits(b: Bytes, m: nat)
    ensures BitsValue(b, m + 2) == 4 * BitsValue(b, m) + 2 * Bit(b, m) + Bit(b, m + 1)
  {
    assert BitsValue(b, m + 1) == 2 * BitsValue(b, m) + Bit(b, m);
  }

  lemma {:induction false} WholeBytes(b: Bytes, k: nat)
    requires k <= |b|
    ensures BitsValue(b, 8 * k) == Number(b[..k])
  {
    if k > 0 {
      WholeBytes(b, k - 1);
      TopBits(b, k - 1, 8);
      ShlEight(BitsValue(b, 8 * (k - 1)), 0);
      assert 8 * (k - 1) + 8 == 8 * k;
      assert b[..k][..k - 1] == b[..k - 1];
    }
  }

  lemma PadBit(b: Bytes, j: nat)
    requires j >= 8 * |b|
    ensures Bit(b, j) == 0 && BitsValue(b, j + 1) == 2 * BitsValue(b, j)
  {
    assert j / 8 >= |b|;
  }

  /** The zero bits on the right only shift. */
  lemma {:induction false} PaddedBits(b: Bytes, p: nat)
    requires p <= 4
    ensures BitsValue(b, 8 * |b| + p) == Shl(Number(b), p)
    decreases p
  {
    if p == 0 {
      WholeBytes(b, |b|);
      assert b[..|b|] == b;
    } else {
      PaddedBits(b, p - 1);
      PadBit(b, 8 * |b| + p - 1);
    }
  }

  lemma EncodeSymbols(b: Bytes)
    ensures forall i :: 0 <= i < Groups(|b|) ==> ValueOf(Encode(b)[i]) == Some(Group(b, i))
  {
    forall i | 0 <= i < Groups(|b|)
      ensures ValueOf(Encode(b)[i]) == Some(Group(b, i))
    {
      SymbolValue(Group(b, i));
    }
  }

  lemma SymbolValue(v: nat)
    requires v < 32
    ensures ValueOf(Symbol(v)) == Some(v)
  {
  }

  lemma NextSymbol(s: Bytes, i: nat, n: nat, v: nat)
    requires i < |s| && Spelled(s[..i]) == Some(n) && ValueOf(s[i]) == Some(v)
    ensures Spelled(s[..i + 1]) == Some(n * 32 + v)
  {
    assert s[..i + 1] == s[..i] + [s[i]] && s[..i + 1][..i] == s[..i];
  }

  /** Symbols whose values extend a running number one by one spell its last value. */
  lemma {:induction false} SpellsRunning(s: Bytes, running: seq<nat>, i: nat)
    requires |running| == |s| + 1 && running[0] == 0 && i <= |s|
    requires forall k :: 0 <= k < |s| ==>
               ValueOf(s[k]).Some? && running[k + 1] == running[k] * 32 + ValueOf(s[k]).value
    ensures Spelled(s[..i]) == Some(running[i])
  {
    if i > 0 {
      SpellsRunning(s, running, i - 1);
      NextSymbol(s, i - 1, running[i - 1], ValueOf(s[i - 1]).value);
    }
  }

  /** Zero bits that complete the last group of an encoding of `n` bytes. */
  function Padding(n: nat): (p: nat)
    ensures p <= 4 && 5 * Groups(n) == 8 * n + p
  {
    5 * Groups(n) - 8 * n
  }

  /** The bit stream's value after each group. */
  function Running(b: Bytes): (r: seq<nat>)
    ensures |r| == Groups(|b|) + 1
  {
    seq(Groups(|b|) + 1, i requires 0 <= i < Groups(|b|) + 1 => BitsValue(b, 5 * i))
  }

  lemma RunningStep(b: Bytes, k: nat)
    requires k < Groups(|b|)
    ensures ValueOf(Encode(b)[k]).Some?
    ensures Running(b)[k + 1] == Running(b)[k] * 32 + ValueOf(Encode(b)[k]).value
  {
    EncodeSymbols(b);
    FiveBits(b, k);
  }

  lemma RunningAt(b: Bytes, i: nat)
    requires i <= Groups(|b|)
    ensures Running(b)[i] == BitsValue(b, 5 * i)
  {
  }

  lemma RunningStarts(b: Bytes)
    ensures Running(b)[0] == 0
  {
    RunningAt(b, 0);
  }

  lemma RunningEnds(b: Bytes, n: nat, p: nat)
    requires n == Groups(|b|) && p == Padding(|b|)
    ensures Running(b)[n] == Shl(Number(b), p)
  {
    RunningAt(b, n);
    WholeStream(b, n, p);
  }

  lemma WholeStream(b: Bytes, n: nat, p: nat)
    requires 5 * n == 8 * |b| + p && p <= 4
    ensures BitsValue(b, 5 * n) == Shl(Number(b), p)
  {
    PaddedBits(b, p);
  }

  lemma SpellsWhole(b: Bytes, s: Bytes, running: seq<nat>)
    requires s == Encode(b) && running == Running(b)
    ensures Spelled(s) == Some(running[|s|])
  {
    forall k | 0 <= k < |s|
      ensures ValueOf(s[k]).Some? && running[k + 1] == running[k] * 32 + ValueOf(s[k]).value
    {
      RunningStep(b, k);
    }
    RunningStarts(b);
    SpellsRunning(s, running, |s|);
    assert s[..|s|] == s;
  }

  /** An encoding spells the bytes' number, shifted by the padding. */
  lemma EncodingSpells(b: Bytes)
    ensures Spelled(Encode(b)) == Some(Shl(Number(b), Padding(|b|)))
  {
    SpellsWhole(b, Encode(b), Running(b));
    RunningEnds(b, Groups(|b|), Padding(|b|));
  }

  lemma {:induction false} SpellingInjective(s: Bytes, t: Bytes)
    requires |s| == |t| && Spelled(s).Some? && Spelled(s) == Spelled(t)
    ensures s == t
  {
    if |s| > 0 {
      var n := |s| - 1;
      SameLastDigit(Spelled(s[..n]).value, ValueOf(s[n]).value, Spelled(t[..n]).value, ValueOf(t[n]).value);
      SpellingInjective(s[..n], t[..n]);
      assert s == s[..n] + [s[n]] && t == t[..n] + [t[n]];
    }
  }

  lemma SameLastDigit(m: nat, x: nat, n: nat, y: nat)
    requires m * 32 + x == n * 32 + y && x < 32 && y < 32
    ensures m == n && x == y
  {
  }

  // ---- the decoder's accumulator ----

  /** After `n` symbols that spell `spelled`: the bytes out and the bits not yet out. */
  ghost predicate Accumulated(n: nat, spelled: nat, out: Bytes, acc: nat, nbits: nat) {
    && 5 * n == 8 * |out| + nbits && nbits < 8
    && acc < Shl(1, nbits)
    && spelled == Shl(Number(out), nbits) + acc
  }

  lemma AccumulateSmall(n: nat, spelled: nat, out: Bytes, acc: nat, nbits: nat, v: nat)
    requires Accumulated(n, spelled, out, acc, nbits) && v < 32 && nbits < 3
    ensures Accumulated(n + 1, spelled * 32 + v, out, acc * 32 + v, nbits + 5)
  {
    ShlFive(1, nbits);
    ShlFive(Number(out), nbits);
  }

  lemma AccumulateByte(n: nat, spelled: nat, out: Bytes, acc: nat, nbits: nat, v: nat)
    requires Accumulated(n, spelled, out, acc, nbits) && v < 32 && nbits >= 3
    ensures var a := acc * 32 + v;
            Shr(a, nbits - 3) < 256
            && Accumulated(n + 1, spelled * 32 + v, out + [Shr(a, nbits - 3)], Low(a, nbits - 3), nbits - 3)
  {
    var a, rest := acc * 32 + v, nbits - 3;
    ShlFive(1, nbits);
    ShlFive(Number(out), nbits);
    var q := TopByte(a, rest);
    ShiftSplit(a, rest);
    ShlEight(Number(out), rest);
    ShlAdd(256 * Number(out), q, rest);
    assert Number(out + [q]) == 256 * Number(out) + q by {
      assert (out + [q])[..|out|] == out;
    }
  }

  /** What is pushed fits a byte. */
  lemma TopByte(a: nat, k: nat) returns (q: nat)
    requires a < Shl(1, k + 8)
    ensures q == Shr(a, k) && q < 256
  {
    q := Shr(a, k);
    ShiftSplit(a, k);
    ShlEight(1, k);
    if q >= 256 {
      ShlAdd(256, q - 256, k);
    }
  }

  lemma LengthsAgree(m: nat, n: nat, nbits: nat)
    requires 5 * Groups(m) == 8 * n + nbits && nbits < 8
    ensures n == m && nbits == Padding(m)
  {
  }

  /** Symbols that leave fewer than five bits, all zero, are the encoding of what came out. */
  lemma CleanEndIsEncoding(s: Bytes, spelled: nat, out: Bytes, nbits: nat)
    requires Spelled(s) == Some(spelled) && Accumulated(|s|, spelled, out, 0, nbits) && nbits < 5
    ensures s == Encode(out)
  {
    assert |s| == Groups(|out|) && nbits == Padding(|out|);
    EncodingSpells(out);
    SpellingInjective(s, Encode(out));
  }

  /** And an encoding always ends that way, with its own bytes. */
  lemma EncodingEndsClean(b: Bytes, spelled: nat, out: Bytes, acc: nat, nbits: nat)
    requires Spelled(Encode(b)) == Some(spelled) && Accumulated(|Encode(b)|, spelled, out, acc, nbits)
    ensures nbits < 5 && acc == 0 && out == b
  {
    LengthsAgree(|b|, |out|, nbits);
    EncodingSpells(b);
    SameHighPart(Number(b), Number(out), nbits, acc);
    NumberInjective(b, out);
  }

  lemma SameHighPart(x: nat, y: nat, k: nat, r: nat)
    requires Shl(x, k) == Shl(y, k) + r && r < Shl(1, k)
    ensures x == y && r == 0
  {
    if x > y {
      ShlAdd(y, x - y, k);
      ShlGrows(x - y, k);
    } else if y > x {
      ShlAdd(x, y - x, k);
      ShlGrows(y - x, k);
    }
  }

  /** `r` is what `s` decodes to: the bytes it is the canonical encoding of, if there are any. */
  ghost predicate DecodesTo(s: Bytes, r: Option<Bytes>) {
    forall b :: r == Some(b) <==> s == Encode(b)
  }

  /** No encoding contains a byte outside the alphabet. */
  lemma StrayByte(s: Bytes, i: nat)
    requires i < |s| && ValueOf(s[i]).None?
    ensures DecodesTo(s, None)
  {
    forall b
      ensures s != Encode(b)
    {
      EncodeSymbols(b);
    }
  }

  /** The end of the loop decides: clean means the encoding of `out` and of nothing else. */
  lemma EndDecides(s: Bytes, spelled: nat, out: Bytes, acc: nat, nbits: nat)
    requires Spelled(s) == Some(spelled) && Accumulated(|s|, spelled, out, acc, nbits)
    ensures DecodesTo(s, if nbits >= 5 || acc != 0 then None else Some(out))
  {
    forall b | s == Encode(b)
      ensures nbits < 5 && acc == 0 && b == out
    {
      EncodingEndsClean(b, spelled, out, acc, nbits);
    }
    if nbits < 5 && acc == 0 {
      CleanEndIsEncoding(s, spelled, out, nbits);
    }
  }

  /** `base32_lower_decode`: the exact partial inverse of the encoding. */
  method Decode(s: Bytes) returns (r: Option<Bytes>)
    ensures DecodesTo(s, r)
  {
    var out: Bytes := [];
    var acc: nat, nbits: nat := 0, 0;
    ghost var spelled: nat := 0;
    for i := 0 to |s|
      invariant Spelled(s[..i]) == Some(spelled) && Accumulated(i, spelled, out, acc, nbits)
    {
      var value := ValueOf(s[i]);
      if value.None? {
        StrayByte(s, i);
        return None;
      }
      var v := value.value;
      NextSymbol(s, i, spelled, v);
      if nbits < 3 {
        AccumulateSmall(i, spelled, out, acc, nbits, v);
      } else {
        AccumulateByte(i, spelled, out, acc, nbits, v);
      }
      acc, nbits, spelled := acc * 32 + v, nbits + 5, spelled * 32 + v;
      if nbits >= 8 {
        nbits := nbits - 8;
        out := out + [Shr(acc, nbits)];
        acc := Low(acc, nbits);
      }
    }
    assert s[..|s|] == s;
    EndDecides(s, spelled, out, acc, nbits);
    if nbits >= 5 || acc != 0 {
      return None;
    }
    r := Some(out);
  }

  /** Different bytes have different encodings, so the decoder's result is unique. */
  lemma EncodeInjective(a: Bytes, b: Bytes)
    requires Encode(a) == Encode(b)
    ensures a == b
  {
    EncodingSpells(a);
    OnePositive(Padding(|a|));
    EncodingEndsClean(b, Shl(Number(a), Padding(|a|)), a, 0, Padding(|a|));
  }
}
