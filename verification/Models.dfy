/** CID grammars and verified provisioning. A CID is handled as the bytes of its string. */
module Models {
  import opened Prelude
  import B = Base32

  // ---- byte classes ----

  predicate Base58(c: byte) {
    || '1' as int <= c <= '9' as int
    || 'A' as int <= c <= 'H' as int || 'J' as int <= c <= 'N' as int || 'P' as int <= c <= 'Z' as int
    || 'a' as int <= c <= 'k' as int || 'm' as int <= c <= 'z' as int
  }

  predicate Alphanumeric(c: byte) {
    || '0' as int <= c <= '9' as int
    || 'A' as int <= c <= 'Z' as int || 'a' as int <= c <= 'z' as int
  }

  /** The Bitcoin alphabet leaves out 0, O, I and l. */
  lemma Base58Alphabet(c: byte)
    ensures Base58(c) <==>
              Alphanumeric(c) && c != '0' as int && c != 'O' as int && c != 'I' as int && c != 'l' as int
  {
  }

  const Q: byte := 'Q' as int
  const M: byte := 'm' as int
  const MULTIBASE_B: byte := 'b' as int

  // ---- the executor's grammar ----

  predicate IsCidV0(cid: Bytes) {
    |cid| == 46 && cid[0] == Q && cid[1] == M && forall c :: c in cid ==> Base58(c)
  }

  /** `b` and the base32 of a byte string that starts with version 1 and has room for a multihash. */
  ghost predicate IsCidV1(cid: Bytes) {
    exists b :: |b| >= 4 && b[0] == 0x01 && cid == [MULTIBASE_B] + B.Encode(b)
  }

  ghost predicate ExecutorAccepts(cid: Bytes) {
    IsCidV0(cid) || IsCidV1(cid)
  }

  /** `validate_cid` in the executor. A 46-byte string that starts with `Qm` is judged as CIDv0 only. */
  method ValidateCid(cid: Bytes) returns (ok: bool)
    ensures ok <==> ExecutorAccepts(cid)
  {
    if |cid| == 46 && cid[0] == Q && cid[1] == M {
      ok := forall c :: c in cid ==> Base58(c);
      return;
    }
    if |cid| > 0 && cid[0] == MULTIBASE_B {
      var rest := cid[1..];
      assert cid == [MULTIBASE_B] + rest;
      var bytes := B.Decode(rest);
      ok := bytes.Some? && |bytes.value| >= 4 && bytes.value[0] == 0x01;
      V1ByDecoding(cid, rest, bytes);
      return;
    }
    ok := false;
  }

  lemma V1ByDecoding(cid: Bytes, rest: Bytes, r: Option<Bytes>)
    requires cid == [MULTIBASE_B] + rest
    requires forall b :: r == Some(b) <==> rest == B.Encode(b)
    ensures IsCidV1(cid) <==> r.Some? && |r.value| >= 4 && r.value[0] == 0x01
  {
    if b :| |b| >= 4 && b[0] == 0x01 && cid == [MULTIBASE_B] + B.Encode(b) {
      assert rest == cid[1..] == B.Encode(b);
    }
  }

  // ---- the stricter gate in front of it ----

  /** `validate_cid` in the daemon: bounds, charset and prefix, then the executor's grammar. */
  method GateCid(cid: Bytes) returns (ok: bool)
    ensures ok <==> ExecutorAccepts(cid) && 46 <= |cid| <= 256
  {
    AcceptedShape(cid);
    if |cid| < 46 || |cid| > 256 {
      return false;
    }
    if exists c :: c in cid && !Alphanumeric(c) {
      return false;
    }
    var v0 := cid[0] == Q && cid[1] == M;
    var first := cid[0];
    var v1 := first == 'b' as int || first == 'B' as int || first == 'z' as int
              || first == 'f' as int || first == 'F' as int;
    if !(v0 || v1) {
      return false;
    }
    ok := ValidateCid(cid);
  }

  /** The gate's cheap checks never refuse what the grammar accepts. */
  lemma AcceptedShape(cid: Bytes)
    ensures ExecutorAccepts(cid) ==>
              && (forall c :: c in cid ==> Alphanumeric(c))
              && |cid| > 1 && ((cid[0] == Q && cid[1] == M) || cid[0] == MULTIBASE_B)
  {
    if IsCidV1(cid) {
      var b :| |b| >= 4 && b[0] == 0x01 && cid == [MULTIBASE_B] + B.Encode(b);
      B.EncodeSymbols(b);
      forall c | c in cid
        ensures Alphanumeric(c)
      {
        if c != MULTIBASE_B {
          assert B.ValueOf(c).Some?;
        }
      }
    }
  }

  // ---- self-verifying CIDs ----

  /** version 1, codec raw, sha2-256, 32 bytes */
  const RAW_SHA256: Bytes := [0x01, 0x55, 0x12, 0x20]

  /** The one string that names raw content with this digest. */
  function CidOf(digest: Word): (cid: Bytes)
    ensures |cid| == 59
  {
    [MULTIBASE_B] + B.Encode(RAW_SHA256 + digest)
  }

  /** `cid_embedded_sha256` */
  method EmbeddedSha256(cid: Bytes) returns (r: Option<Word>)
    ensures forall d :: r == Some(d) <==> cid == CidOf(d)
  {
    if |cid| == 0 || cid[0] != MULTIBASE_B {
      return None;
    }
    var rest := cid[1..];
    assert cid == [MULTIBASE_B] + rest;
    var bytes := B.Decode(rest);
    if bytes.Some? && |bytes.value| == 36 && bytes.value[0] == 0x01 && bytes.value[1] == 0x55
       && bytes.value[2] == 0x12 && bytes.value[3] == 0x20 {
      var digest: Word := bytes.value[4..];
      assert bytes.value == RAW_SHA256 + digest;
      r := Some(digest);
    } else {
      r := None;
    }
    EmbeddedByDecoding(cid, rest, bytes, r);
  }

  lemma EmbeddedByDecoding(cid: Bytes, rest: Bytes, bytes: Option<Bytes>, r: Option<Word>)
    requires cid == [MULTIBASE_B] + rest
    requires forall b :: bytes == Some(b) <==> rest == B.Encode(b)
    requires r.Some? ==> bytes == Some(RAW_SHA256 + r.value)
    requires r.None? ==> forall d: Word :: bytes != Some(RAW_SHA256 + d)
    ensures forall d :: r == Some(d) <==> cid == CidOf(d)
  {
    forall d: Word
      ensures r == Some(d) <==> cid == CidOf(d)
    {
      assert CidOf(d)[1..] == B.Encode(RAW_SHA256 + d) && cid[1..] == rest;
      if cid == CidOf(d) {
        assert bytes == Some(RAW_SHA256 + d);
        if r.Some? {
          assert (RAW_SHA256 + d)[4..] == d && (RAW_SHA256 + r.value)[4..] == r.value;
        }
      }
    }
  }

  /** Digests and the self-verifying CIDs are in bijection, and every such CID passes both grammars. */
  lemma SelfVerifyingCids(d: Word, e: Word)
    ensures CidOf(d) == CidOf(e) ==> d == e
    ensures ExecutorAccepts(CidOf(d)) && 46 <= |CidOf(d)| <= 256
  {
    if CidOf(d) == CidOf(e) {
      assert CidOf(d)[1..] == B.Encode(RAW_SHA256 + d) && CidOf(e)[1..] == B.Encode(RAW_SHA256 + e);
      B.EncodeInjective(RAW_SHA256 + d, RAW_SHA256 + e);
      assert (RAW_SHA256 + d)[4..] == d && (RAW_SHA256 + e)[4..] == e;
    }
    assert IsCidV1(CidOf(d)) by {
      assert (RAW_SHA256 + d)[0] == 0x01;
    }
  }

  /** The first thirty bits of a raw sha2-256 frame, as a number and by fives. */
  lemma RawPrefixBits(b: Bytes)
    requires |b| >= 4 && b[..4] == RAW_SHA256
    ensures B.BitsValue(b, 30) == 0x0155_1220 / 4
  {
    B.WholeBytes(b, 4);
    var three, two, one := b[..4][..3], b[..4][..3][..2], b[..4][..3][..2][..1];
    assert Number(one) == 1 && Number(two) == 0x0155 && Number(three) == 0x01_5512;
    assert Number(b[..4]) == 0x0155_1220;
    B.TwoBits(b, 30);
  }

  lemma FirstGroups(b: Bytes)
    requires B.BitsValue(b, 30) == 0x0155_1220 / 4
    ensures B.Group(b, 0) == 0 && B.Group(b, 1) == 5 && B.Group(b, 2) == 10
    ensures B.Group(b, 3) == 17 && B.Group(b, 4) == 4 && B.Group(b, 5) == 8
  {
    SplitGroup(b, 5, 174_628, 8);
    SplitGroup(b, 4, 5_457, 4);
    SplitGroup(b, 3, 170, 17);
    SplitGroup(b, 2, 5, 10);
    SplitGroup(b, 1, 0, 5);
    SplitGroup(b, 0, 0, 0);
  }

  lemma SplitGroup(b: Bytes, i: nat, high: nat, low: nat)
    requires low < 32 && B.BitsValue(b, 5 * i + 5) == 32 * high + low
    ensures B.BitsValue(b, 5 * i) == high && B.Group(b, i) == low
  {
    B.FiveBits(b, i);
  }

  lemma PrefixSymbols(b: Bytes, s: Bytes)
    requires s == B.Encode(b) && |s| >= 6 && B.BitsValue(b, 30) == 0x0155_1220 / 4
    ensures s[0] == 'a' as int && s[1] == 'f' as int && s[2] == 'k' as int
    ensures s[3] == 'r' as int && s[4] == 'e' as int && s[5] == 'i' as int
  {
    FirstGroups(b);
  }

  /** The self-verifying CIDs start with "bafkrei". */
  lemma CidPrefix(digest: Word)
    ensures var cid := CidOf(digest);
            && cid[0] == 'b' as int && cid[1] == 'a' as int && cid[2] == 'f' as int && cid[3] == 'k' as int
            && cid[4] == 'r' as int && cid[5] == 'e' as int && cid[6] == 'i' as int
  {
    var b := RAW_SHA256 + digest;
    var s := B.Encode(b);
    RawPrefixBits(b);
    PrefixSymbols(b, s);
    assert CidOf(digest) == [MULTIBASE_B] + s;
  }

  // ---- provisioning ----

  datatype ProvisionError =
    | Inactive | EmptyCid | InvalidCid | Unverifiable
    | SizeMismatch | DigestMismatch | FetchFailed | CacheFailed

  /** How far creating the cache directory and writing the file gets. */
  datatype CacheWrite = Written | NotStarted | CutShort(n: nat)

  function CutAt(b: Bytes, n: nat): Bytes {
    if n <= |b| then b[..n] else b
  }

  /** These bytes have the expected size and hash to a commitment that did not come from the transport:
      the caller's digest or, without one, the digest the CID itself spells, so that the CID is the one
      name of exactly these bytes. */
  ghost predicate Verified(sha256: Hash, cid: Bytes, size: Option<nat>, digest: Option<Word>, b: Bytes) {
    && (size.Some? ==> |b| == size.value)
    && (if digest.Some? then sha256(b) == digest.value else cid == CidOf(sha256(b)))
  }

  /** `e` is the digest the bytes must have, if anything fixes one. */
  ghost predicate Expects(cid: Bytes, digest: Option<Word>, e: Option<Word>) {
    if digest.Some? then e == digest else forall d :: e == Some(d) <==> cid == CidOf(d)
  }

  /** The commitment is resolved before any fetch. */
  method ExpectedDigest(cid: Bytes, digest: Option<Word>) returns (e: Option<Word>)
    ensures Expects(cid, digest, e)
  {
    if digest.Some? {
      return digest;
    }
    e := EmbeddedSha256(cid);
  }

  predicate Matches(sha256: Hash, size: Option<nat>, e: Word, b: Bytes) {
    (size.None? || size.value == |b|) && sha256(b) == e
  }

  lemma VerifiedByDigest(sha256: Hash, cid: Bytes, size: Option<nat>, digest: Option<Word>, e: Option<Word>, b: Bytes)
    requires Expects(cid, digest, e)
    ensures Verified(sha256, cid, size, digest, b) <==> e.Some? && Matches(sha256, size, e.value, b)
  {
  }

  /** The weights directory: one file per model hash. */
  class Cache {
    var files: map<Word, Bytes>

    constructor ()
      ensures files == map[]
    {
      files := map[];
    }

    /** `provision`. `readable` and `unlinks` are whether the cached file can be read and removed,
        `fetched` what the gateway delivers. It succeeds exactly when a cached or a fetched copy verifies,
        and returns that copy; a copy that fails to verify is never returned, whatever an earlier call
        left in the cache. */
    method Provision(sha256: Hash, model: Word, cid: Bytes, isActive: bool, size: Option<nat>, digest: Option<Word>,
                     readable: bool, unlinks: bool, fetched: Option<Bytes>, write: CacheWrite)
      returns (r: Result<Bytes, ProvisionError>)
      modifies this
      ensures var cachedOk := model in old(files) && readable && Verified(sha256, cid, size, digest, old(files)[model]);
              var fetchedOk := fetched.Some? && write == Written && Verified(sha256, cid, size, digest, fetched.value);
              && (r.Ok? <==> isActive && ExecutorAccepts(cid) && (cachedOk || fetchedOk))
              && (r.Ok? && cachedOk ==> r.value == old(files)[model] && files == old(files))
              && (r.Ok? && !cachedOk ==> r.value == fetched.value && files == old(files)[model := r.value])
      ensures r.Err? ==>
                || files == old(files) || files == old(files) - {model}
                || (write.CutShort? && fetched.Some? && files == old(files)[model := CutAt(fetched.value, write.n)])
    {
      if !isActive {
        return Err(Inactive);
      }
      if cid == [] {
        return Err(EmptyCid);
      }
      var valid := ValidateCid(cid);
      if !valid {
        return Err(InvalidCid);
      }
      var expected := ExpectedDigest(cid, digest);
      if model in files {
        VerifiedByDigest(sha256, cid, size, digest, expected, files[model]);
      }
      if fetched.Some? {
        VerifiedByDigest(sha256, cid, size, digest, expected, fetched.value);
      }
      if expected.None? {
        return Err(Unverifiable);
      }
      r := Obtain(sha256, model, size, expected.value, readable, unlinks, fetched, write);
    }

    /** From the cache if what is there matches, else from the gateway. */
    method Obtain(sha256: Hash, model: Word, size: Option<nat>, expected: Word,
                  readable: bool, unlinks: bool, fetched: Option<Bytes>, write: CacheWrite)
      returns (r: Result<Bytes, ProvisionError>)
      modifies this
      ensures var cachedOk := model in old(files) && readable && Matches(sha256, size, expected, old(files)[model]);
              var fetchedOk := fetched.Some? && write == Written && Matches(sha256, size, expected, fetched.value);
              && (r.Ok? <==> cachedOk || fetchedOk)
              && (r.Ok? && cachedOk ==> r.value == old(files)[model] && files == old(files))
              && (r.Ok? && !cachedOk ==> r.value == fetched.value && files == old(files)[model := r.value])
      ensures r.Err? ==>
                || files == old(files) || files == old(files) - {model}
                || (write.CutShort? && fetched.Some? && files == old(files)[model := CutAt(fetched.value, write.n)])
    {
      if model in files && readable {
        var cached := files[model];
        if (size.None? || size.value == |cached|) && sha256(cached) == expected {
          return Ok(cached);
        }
        if unlinks {
          files := files - {model};
        }
      }
      if fetched.None? {
        return Err(FetchFailed);
      }
      var bytes := fetched.value;
      if size.Some? && |bytes| != size.value {
        return Err(SizeMismatch);
      }
      if sha256(bytes) != expected {
        return Err(DigestMismatch);
      }
      if write != Written {
        if write.CutShort? {
          files := files[model := CutAt(bytes, write.n)];
        }
        return Err(CacheFailed);
      }
      files := files[model := bytes];
      r := Ok(bytes);
    }
  }
}
