/** Vocabulary shared by every component: options and results, machine integers as subset types,
    byte strings, and big-endian numbers. */
module Prelude {

  datatype Option<+T> = None | Some(value: T)

  /** A success value or an error; usable with `:-`. */
  datatype Result<+T, +E> = Ok(value: T) | Err(error: E) {
    predicate IsFailure() {
      Err?
    }

    function PropagateFailure<U>(): Result<U, E>
      requires Err?
    {
      Err(error)
    }

    function Extract(): T
      requires Ok?
    {
      value
    }
  }

  const U64_MAX := 0xffff_ffff_ffff_ffff
  const U128_MAX := 0xffff_ffff_ffff_ffff_ffff_ffff_ffff_ffff

  /** Rust caps the byte length of a `Vec` or slice at `isize::MAX` on a 64-bit target. */
  const VEC_MAX := 0x7fff_ffff_ffff_ffff

  type byte = x: int | 0 <= x < 0x100
  type u32 = x: int | 0 <= x <= 0xffff_ffff
  type u64 = x: int | 0 <= x <= U64_MAX
  type u128 = x: int | 0 <= x <= U128_MAX

  type Bytes = seq<byte>
  type Vec = b: Bytes | |b| <= VEC_MAX
  type Word = w: Bytes | |w| == 32 witness seq(32, _ => 0)
  type Address = a: Bytes | |a| == 20 witness seq(20, _ => 0)

  /** A hash function: the verified code never depends on which one. */
  type Hash = Bytes -> Word

  function Min(a: int, b: int): int {
    if a <= b then a else b
  }

  function Zeros(n: nat): (z: Bytes)
    ensures |z| == n
  {
    seq(n, _ => 0)
  }

  // ---- u128 arithmetic as Rust's `saturating_*` does it ----

  function SatMul(a: u128, b: u128): u128 {
    if a * b > U128_MAX then U128_MAX else a * b
  }

  function SatAdd(a: u128, b: u128): u128 {
    if a + b > U128_MAX then U128_MAX else a + b
  }

  function SatSub(a: u128, b: u128): u128 {
    if a < b then 0 else a - b
  }

  lemma Monotone(a: nat, b: nat, p: nat)
    requires a >= b
    ensures a * p >= b * p
  {
  }

  // ---- big-endian numbers ----

  function Pow256(n: nat): (p: nat)
    ensures p > 0
  {
    if n == 0 then 1 else 256 * Pow256(n - 1)
  }

  /** The `n` low-order bytes of `v`, most significant first (`to_be_bytes`). */
  function BigEndian(v: nat, n: nat): (b: Bytes)
    ensures |b| == n
  {
    if n == 0 then [] else BigEndian(v / 256, n - 1) + [v % 256]
  }

  /** The number a byte string spells, most significant byte first (`from_be_bytes`). */
  function Number(b: Bytes): nat {
    if |b| == 0 then 0 else Number(b[..|b| - 1]) * 256 + b[|b| - 1]
  }

  lemma {:induction false} NumberOfBigEndian(v: nat, n: nat)
    requires v < Pow256(n)
    ensures Number(BigEndian(v, n)) == v
  {
    if n > 0 {
      NumberOfBigEndian(v / 256, n - 1);
      assert BigEndian(v, n)[..n - 1] == BigEndian(v / 256, n - 1);
    }
  }

  lemma {:induction false} BigEndianOfNumber(b: Bytes)
    ensures Number(b) < Pow256(|b|)
    ensures BigEndian(Number(b), |b|) == b
  {
    if |b| > 0 {
      BigEndianOfNumber(b[..|b| - 1]);
    }
  }

  lemma {:induction false} NumberIgnoresLeadingZeros(n: nat, b: Bytes)
    ensures Number(Zeros(n) + b) == Number(b)
  {
    if |b| > 0 {
      NumberIgnoresLeadingZeros(n, b[..|b| - 1]);
      assert (Zeros(n) + b)[..n + |b| - 1] == Zeros(n) + b[..|b| - 1];
    } else if n > 0 {
      NumberIgnoresLeadingZeros(n - 1, []);
      assert (Zeros(n) + b)[..n - 1] == Zeros(n - 1) + [];
    }
  }

  /** Byte strings of one length spell different numbers. */
  lemma NumberInjective(a: Bytes, b: Bytes)
    requires |a| == |b| && Number(a) == Number(b)
    ensures a == b
  {
    BigEndianOfNumber(a);
    BigEndianOfNumber(b);
  }

  /** The 32-byte big-endian word that spells `v` (the zero word when none does). */
  ghost function WordOf(v: nat): Word {
    if exists w: Word :: Number(w) == v then
      var w: Word :| Number(w) == v;
      w
    else Zeros(32)
  }

  lemma NumberOfWord(v: u128)
    ensures Number(WordOf(v)) == v
  {
    U128Width();
    Pow256Grows(16, 32);
    NumberOfBigEndian(v, 32);
    var w: Word := BigEndian(v, 32);
    assert Number(w) == v;
  }

  lemma U64Width()
    ensures Pow256(8) == U64_MAX + 1
  {
  }

  lemma U128Width()
    ensures Pow256(16) == U128_MAX + 1
  {
    U64Width();
  }

  lemma {:induction false} Pow256Grows(m: nat, n: nat)
    requires m <= n
    ensures Pow256(m) <= Pow256(n)
  {
    if m < n {
      Pow256Grows(m, n - 1);
    }
  }

  // ---- sequences ----

  lemma Middle<T>(a: seq<T>, b: seq<T>, c: seq<T>)
    ensures (a + b + c)[|a|..|a| + |b|] == b
  {
  }

  lemma Regroup4<T>(a: seq<T>, b: seq<T>, c: seq<T>, d: seq<T>)
    ensures a + (b + c) + d == a + b + (c + d)
    ensures a + (b + c) + d == (a + b) + c + d
  {
  }

  lemma Regroup5<T>(a: seq<T>, b: seq<T>, c: seq<T>, d: seq<T>, e: seq<T>)
    ensures a + (b + c + d) + e == a + b + (c + d + e)
    ensures a + (b + c + d) + e == (a + b) + c + (d + e)
  {
  }
}
