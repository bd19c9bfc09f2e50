/** Weighted signer sets and threshold proofs. Ed25519 verification (RFC 8032, section 5.1.7) is a parameter. */
module Signatures {
  import opened ByteStrings
  import opened Keccak
  import opened Preimages

  type Signature = b: bytes | |b| == 64 witness Zeros(64)
  type Verifier = (Key, Hash, Signature) -> bool

  datatype Proof = Proof(signers: WeightedSigners, signatures: seq<Option<Signature>>)

  // ---------- which sets may be installed ----------

  function TotalWeight(signers: seq<WeightedSigner>, n: nat): nat
    requires n <= |signers|
  {
    if n == 0 then 0 else TotalWeight(signers, n - 1) + signers[n - 1].weight
  }

  predicate Ascending(signers: seq<WeightedSigner>, n: nat)
    requires n <= |signers|
  {
    forall i :: 0 <= i < n ==> FromBe(signers[i].signer) > if i == 0 then 0 else FromBe(signers[i - 1].signer)
  }

  predicate ValidSigners(ws: WeightedSigners) {
    && ws.signers != []
    && Ascending(ws.signers, |ws.signers|)
    && (forall i :: 0 <= i < |ws.signers| ==> ws.signers[i].weight > 0)
    && ws.threshold > 0
    && TotalWeight(ws.signers, |ws.signers|) >= ws.threshold
  }

  method ValidateSigners(ws: WeightedSigners) returns (ok: bool)
    ensures ok == ValidSigners(ws)
  {
    if ws.signers == [] { return false; }
    var totalWeight := 0;
    var prevSigner := 0;
    for i := 0 to |ws.signers|
      invariant Ascending(ws.signers, i)
      invariant forall j :: 0 <= j < i ==> ws.signers[j].weight > 0
      invariant prevSigner == if i == 0 then 0 else FromBe(ws.signers[i - 1].signer)
      invariant totalWeight == TotalWeight(ws.signers, i)
    {
      var currSigner := FromBe(ws.signers[i].signer);
      if currSigner <= prevSigner { return false; }
      prevSigner := currSigner;
      if ws.signers[i].weight == 0 { return false; }
      totalWeight := totalWeight + ws.signers[i].weight;
    }
    ok := ws.threshold > 0 && totalWeight >= ws.threshold;
  }

  lemma {:induction false} AscendingOrdered(signers: seq<WeightedSigner>, i: nat, j: nat)
    requires i < j < |signers| && Ascending(signers, |signers|)
    ensures FromBe(signers[i].signer) < FromBe(signers[j].signer)
  {
    if i + 1 < j { AscendingOrdered(signers, i, j - 1); }
  }

  /** No key can be counted twice. */
  lemma KeysDistinct(ws: WeightedSigners)
    requires ValidSigners(ws)
    ensures forall i, j :: 0 <= i < j < |ws.signers| ==> ws.signers[i].signer != ws.signers[j].signer
  {
    forall i, j | 0 <= i < j < |ws.signers| ensures ws.signers[i].signer != ws.signers[j].signer {
      AscendingOrdered(ws.signers, i, j);
    }
  }

  /** Exactly the sets whose keys are positive and strictly increasing throughout, whose weights are positive, and whose
      threshold is positive and within reach can be installed. */
  lemma ValidSignersExactly(ws: WeightedSigners)
    ensures ValidSigners(ws) <==>
      && |ws.signers| > 0
      && (forall i :: 0 <= i < |ws.signers| ==> FromBe(ws.signers[i].signer) > 0 && ws.signers[i].weight > 0)
      && (forall i, j :: 0 <= i < j < |ws.signers| ==> FromBe(ws.signers[i].signer) < FromBe(ws.signers[j].signer))
      && 0 < ws.threshold <= TotalWeight(ws.signers, |ws.signers|)
  {
    var n := |ws.signers|;
    if Ascending(ws.signers, n) {
      forall i, j | 0 <= i < j < n ensures FromBe(ws.signers[i].signer) < FromBe(ws.signers[j].signer) {
        AscendingOrdered(ws.signers, i, j);
      }
      forall i | 0 <= i < n ensures FromBe(ws.signers[i].signer) > 0 {
        assert FromBe(ws.signers[i].signer) > if i == 0 then 0 else FromBe(ws.signers[i - 1].signer);
      }
    } else {
      var i :| 0 <= i < n && FromBe(ws.signers[i].signer) <= if i == 0 then 0 else FromBe(ws.signers[i - 1].signer);
      assert i > 0 ==> 0 <= i - 1 < i < n;
    }
  }

  // ---------- threshold proofs ----------

  /** Weight of the first `n` signers, counting only those with a signature below position `k`. */
  function SignedWeight(signers: seq<WeightedSigner>, signatures: seq<Option<Signature>>, k: nat, n: nat): nat
    requires n <= |signers| == |signatures|
  {
    if n == 0 then 0
    else SignedWeight(signers, signatures, k, n - 1)
         + if n - 1 < k && signatures[n - 1].Some? then signers[n - 1].weight else 0
  }

  predicate SignedBy(verify: Verifier, digest: Hash, signers: seq<WeightedSigner>,
                     signatures: seq<Option<Signature>>, i: nat)
    requires i < |signers| == |signatures|
  {
    signatures[i].Some? && verify(signers[i].signer, digest, signatures[i].value)
  }

  /** All signatures given for the first `k` signers verify. */
  predicate PrefixVerified(verify: Verifier, digest: Hash, signers: seq<WeightedSigner>,
                           signatures: seq<Option<Signature>>, k: nat)
    requires k <= |signers| == |signatures|
  {
    forall i :: 0 <= i < k && signatures[i].Some? ==> SignedBy(verify, digest, signers, signatures, i)
  }

  predicate ReachesThreshold(verify: Verifier, digest: Hash, ws: WeightedSigners,
                             signatures: seq<Option<Signature>>, k: nat)
    requires 0 < k <= |ws.signers| == |signatures|
  {
    && signatures[k - 1].Some?
    && PrefixVerified(verify, digest, ws.signers, signatures, k)
    && SignedWeight(ws.signers, signatures, k, k) >= ws.threshold
  }

  /** Some prefix of verified signatures carries the threshold weight; signatures behind it do not matter. */
  ghost predicate Quorum(verify: Verifier, digest: Hash, ws: WeightedSigners, signatures: seq<Option<Signature>>) {
    && |ws.signers| == |signatures|
    && exists k :: 0 < k <= |signatures| && ReachesThreshold(verify, digest, ws, signatures, k)
  }

  method ValidateSignatures(verify: Verifier, digest: Hash, ws: WeightedSigners, signatures: seq<Option<Signature>>)
    returns (ok: bool)
    ensures ok == Quorum(verify, digest, ws, signatures)
  {
    if signatures == [] || |ws.signers| != |signatures| { return false; }
    var totalWeight := 0;
    for i := 0 to |signatures|
      invariant PrefixVerified(verify, digest, ws.signers, signatures, i)
      invariant totalWeight == SignedWeight(ws.signers, signatures, i, i)
      invariant forall k :: 0 < k <= i ==> !ReachesThreshold(verify, digest, ws, signatures, k)
    {
      SignedWeightBeyond(ws.signers, signatures, i, i + 1, i);
      if signatures[i].None? { continue; }
      if !verify(ws.signers[i].signer, digest, signatures[i].value) {
        assert !SignedBy(verify, digest, ws.signers, signatures, i);
        assert forall k :: i < k <= |signatures| ==> !ReachesThreshold(verify, digest, ws, signatures, k);
        return false;
      }
      totalWeight := totalWeight + ws.signers[i].weight;
      if totalWeight >= ws.threshold {
        assert ReachesThreshold(verify, digest, ws, signatures, i + 1);
        return true;
      }
    }
    return false;
  }

  /** Moving the cut-off does not change the weight of a part below it. */
  lemma {:induction false} SignedWeightBeyond(signers: seq<WeightedSigner>, signatures: seq<Option<Signature>>,
                                              k1: nat, k2: nat, n: nat)
    requires n <= |signers| == |signatures| && n <= k1 && n <= k2
    ensures SignedWeight(signers, signatures, k1, n) == SignedWeight(signers, signatures, k2, n)
  {
    if n > 0 { SignedWeightBeyond(signers, signatures, k1, k2, n - 1); }
  }

  /** Nothing is counted above the cut-off. */
  lemma {:induction false} SignedWeightStops(signers: seq<WeightedSigner>, signatures: seq<Option<Signature>>,
                                             k: nat, n: nat)
    requires k <= n <= |signers| == |signatures|
    ensures SignedWeight(signers, signatures, k, n) == SignedWeight(signers, signatures, k, k)
  {
    if k < n { SignedWeightStops(signers, signatures, k, n - 1); }
  }

  /** With every given signature valid, enough weight is also sufficient. */
  lemma {:induction false} ValidProofReaches(verify: Verifier, digest: Hash, ws: WeightedSigners,
                                             signatures: seq<Option<Signature>>, n: nat)
    requires ws.threshold > 0 && n <= |ws.signers| == |signatures|
    requires PrefixVerified(verify, digest, ws.signers, signatures, n)
    requires SignedWeight(ws.signers, signatures, n, n) >= ws.threshold
    ensures Quorum(verify, digest, ws, signatures)
  {
    if signatures[n - 1].Some? {
      assert ReachesThreshold(verify, digest, ws, signatures, n);
    } else {
      SignedWeightBeyond(ws.signers, signatures, n, n - 1, n - 1);
      ValidProofReaches(verify, digest, ws, signatures, n - 1);
    }
  }

  lemma {:induction false} EveryoneCounts(signers: seq<WeightedSigner>, signatures: seq<Option<Signature>>,
                                          k: nat, n: nat)
    requires n <= k && n <= |signers| == |signatures|
    requires forall i :: 0 <= i < n ==> signatures[i].Some?
    ensures SignedWeight(signers, signatures, k, n) == TotalWeight(signers, n)
  {
    if n > 0 { EveryoneCounts(signers, signatures, k, n - 1); }
  }

  /** No installable set can lock itself out: all signing is a quorum. */
  lemma AllSigningIsQuorum(verify: Verifier, digest: Hash, ws: WeightedSigners, signatures: seq<Option<Signature>>)
    requires ValidSigners(ws) && |signatures| == |ws.signers|
    requires forall i :: 0 <= i < |signatures| ==> SignedBy(verify, digest, ws.signers, signatures, i)
    ensures Quorum(verify, digest, ws, signatures)
  {
    forall i | 0 <= i < |signatures| ensures signatures[i].Some? {
      assert SignedBy(verify, digest, ws.signers, signatures, i);
    }
    EveryoneCounts(ws.signers, signatures, |signatures|, |signatures|);
    ValidProofReaches(verify, digest, ws, signatures, |signatures|);
  }

  /** Weight of the first `n` signers, counting those whose signature verifies. */
  function VerifiedWeight(verify: Verifier, digest: Hash, signers: seq<WeightedSigner>,
                          signatures: seq<Option<Signature>>, n: nat): nat
    requires n <= |signers| == |signatures|
  {
    if n == 0 then 0
    else VerifiedWeight(verify, digest, signers, signatures, n - 1)
         + if SignedBy(verify, digest, signers, signatures, n - 1) then signers[n - 1].weight else 0
  }

  lemma {:induction false} VerifiedCounts(verify: Verifier, digest: Hash, signers: seq<WeightedSigner>,
                                          signatures: seq<Option<Signature>>, k: nat, n: nat)
    requires n <= k <= |signers| == |signatures| && PrefixVerified(verify, digest, signers, signatures, k)
    ensures SignedWeight(signers, signatures, k, n) == VerifiedWeight(verify, digest, signers, signatures, n)
  {
    if n > 0 { VerifiedCounts(verify, digest, signers, signatures, k, n - 1); }
  }

  lemma {:induction false} VerifiedGrows(verify: Verifier, digest: Hash, signers: seq<WeightedSigner>,
                                         signatures: seq<Option<Signature>>, k: nat, n: nat)
    requires k <= n <= |signers| == |signatures|
    ensures VerifiedWeight(verify, digest, signers, signatures, k) <= VerifiedWeight(verify, digest, signers, signatures, n)
  {
    if k < n { VerifiedGrows(verify, digest, signers, signatures, k, n - 1); }
  }

  /** A quorum needs one signature slot for each signer and the threshold in verified weight; if no slot holds a bad
      signature, that is all it needs. */
  lemma {:induction false} QuorumIsWeight(verify: Verifier, digest: Hash, ws: WeightedSigners, signatures: seq<Option<Signature>>)
    requires ws.threshold > 0
    ensures Quorum(verify, digest, ws, signatures) ==>
      |ws.signers| == |signatures|
      && VerifiedWeight(verify, digest, ws.signers, signatures, |signatures|) >= ws.threshold
    ensures |ws.signers| == |signatures| && PrefixVerified(verify, digest, ws.signers, signatures, |signatures|)
            && VerifiedWeight(verify, digest, ws.signers, signatures, |signatures|) >= ws.threshold
            ==> Quorum(verify, digest, ws, signatures)
  {
    if Quorum(verify, digest, ws, signatures) {
      var k :| 0 < k <= |signatures| && ReachesThreshold(verify, digest, ws, signatures, k);
      VerifiedCounts(verify, digest, ws.signers, signatures, k, k);
      VerifiedGrows(verify, digest, ws.signers, signatures, k, |signatures|);
    } else if |ws.signers| == |signatures| && PrefixVerified(verify, digest, ws.signers, signatures, |signatures|)
              && VerifiedWeight(verify, digest, ws.signers, signatures, |signatures|) >= ws.threshold {
      VerifiedCounts(verify, digest, ws.signers, signatures, |signatures|, |signatures|);
      ValidProofReaches(verify, digest, ws, signatures, |signatures|);
      assert false;
    }
  }

  // ---------- intersection ----------

  predicate CountedInBoth(s1: seq<Option<Signature>>, k1: nat, s2: seq<Option<Signature>>, k2: nat, i: nat)
    requires i < |s1| == |s2|
  {
    i < k1 && s1[i].Some? && i < k2 && s2[i].Some?
  }

  lemma {:induction false} DisjointWeights(signers: seq<WeightedSigner>, s1: seq<Option<Signature>>, k1: nat,
                                           s2: seq<Option<Signature>>, k2: nat, n: nat)
    requires n <= |signers| == |s1| == |s2|
    requires forall i :: 0 <= i < n ==> !CountedInBoth(s1, k1, s2, k2, i)
    ensures SignedWeight(signers, s1, k1, n) + SignedWeight(signers, s2, k2, n) <= TotalWeight(signers, n)
  {
    if n > 0 {
      DisjointWeights(signers, s1, k1, s2, k2, n - 1);
      assert !CountedInBoth(s1, k1, s2, k2, n - 1);
    }
  }

  /** If the threshold exceeds half the weight, some signer verifiably signed both of any two accepted digests. */
  lemma QuorumIntersection(verify: Verifier, ws: WeightedSigners, d1: Hash, s1: seq<Option<Signature>>,
                           d2: Hash, s2: seq<Option<Signature>>)
    requires 2 * ws.threshold > TotalWeight(ws.signers, |ws.signers|)
    requires Quorum(verify, d1, ws, s1) && Quorum(verify, d2, ws, s2)
    ensures exists i :: (0 <= i < |ws.signers|
      && SignedBy(verify, d1, ws.signers, s1, i) && SignedBy(verify, d2, ws.signers, s2, i))
  {
    var n := |ws.signers|;
    var k1 :| 0 < k1 <= |s1| && ReachesThreshold(verify, d1, ws, s1, k1);
    var k2 :| 0 < k2 <= |s2| && ReachesThreshold(verify, d2, ws, s2, k2);
    SignedWeightStops(ws.signers, s1, k1, n);
    SignedWeightStops(ws.signers, s2, k2, n);
    if forall i :: 0 <= i < n ==> !CountedInBoth(s1, k1, s2, k2, i) {
      DisjointWeights(ws.signers, s1, k1, s2, k2, n);
      assert false;
    }
    var i :| 0 <= i < n && CountedInBoth(s1, k1, s2, k2, i);
    assert SignedBy(verify, d1, ws.signers, s1, i) && SignedBy(verify, d2, ws.signers, s2, i);
  }
}
