/** The Commitment-tier proof builder and the predicate the verifier contract evaluates. */
module Proof {
  import opened Prelude

  /** An inference output small enough for its proof to fit a `Vec`. */
  type Output = b: Bytes | |b| <= VEC_MAX - 64

  datatype Artifacts = Artifacts(commitment: Word, outputHash: Word, proof: Vec)

  /** `CommitmentProver::build`: commitment = keccak(output ‖ nonce), proof = commitment ‖ nonce ‖ output. */
  function Build(keccak: Hash, output: Output, nonce: Word): Artifacts {
    var commitment := keccak(output + nonce);
    Artifacts(commitment, keccak(output), commitment + nonce + output)
  }

  /** `ComputeVerifier._verifyCommitment`: slice the proof apart and recompute the commitment. */
  predicate OnChainVerify(keccak: Hash, stored: Word, proof: Bytes) {
    && |proof| >= 64
    && proof[..32] == stored
    && keccak(proof[64..] + proof[32..64]) == proof[..32]
  }

  lemma ProofLayout(keccak: Hash, output: Output, nonce: Word)
    ensures Build(keccak, output, nonce).proof[..32] == Build(keccak, output, nonce).commitment
    ensures Build(keccak, output, nonce).proof[32..64] == nonce
    ensures Build(keccak, output, nonce).proof[64..] == output
    ensures Build(keccak, output, nonce).commitment == keccak(output + nonce)
    ensures Build(keccak, output, nonce).outputHash == keccak(output)
  {
    var art := Build(keccak, output, nonce);
    assert art.proof == art.commitment + nonce + output;
  }

  /** The verifier accepts a proof against a stored commitment exactly when the pair was built from
      some output and nonce: nothing built is rejected and nothing else is accepted. */
  lemma AcceptedIffBuilt(keccak: Hash, stored: Word, proof: Vec)
    ensures OnChainVerify(keccak, stored, proof) <==>
            exists output: Output, nonce: Word ::
              Build(keccak, output, nonce).proof == proof && Build(keccak, output, nonce).commitment == stored
  {
    if OnChainVerify(keccak, stored, proof) {
      var output: Output, nonce: Word := proof[64..], proof[32..64];
      assert proof == proof[..32] + nonce + output;
      assert Build(keccak, output, nonce).proof == proof && Build(keccak, output, nonce).commitment == stored;
    }
    forall output: Output, nonce: Word |
      Build(keccak, output, nonce).proof == proof && Build(keccak, output, nonce).commitment == stored
      ensures OnChainVerify(keccak, stored, proof)
    {
      ProofLayout(keccak, output, nonce);
    }
  }

  /** The artifacts a proof file stands for: what the loader rebuilds from its bytes. */
  function FromProof(keccak: Hash, proof: Vec): Artifacts
    requires |proof| >= 64
  {
    Build(keccak, proof[64..], proof[32..64])
  }

  /** Parsing a built proof gives back the artifacts it was built into. */
  lemma ParseBuilt(keccak: Hash, output: Output, nonce: Word)
    ensures FromProof(keccak, Build(keccak, output, nonce).proof) == Build(keccak, output, nonce)
  {
    ProofLayout(keccak, output, nonce);
  }
}
