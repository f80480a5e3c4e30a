/** Go's quorum rule and VAA verification, and why two quorums always meet. */
module Quorum {
  import opened Bytes
  import opened Cryptography
  import opened Vaa

  /** Go's CalculateQuorum; it panics on a negative count. */
  function CalculateQuorum(numGuardians: int): (r: Option<nat>)
    ensures r.Some? <==> numGuardians >= 0
    ensures r.Some? ==> 3 * r.value > 2 * numGuardians && 3 * (r.value - 1) <= 2 * numGuardians
  {
    if numGuardians < 0 then None else Some(numGuardians * 2 / 3 + 1)
  }

  /** The signature recovers to the given address over the digest. */
  ghost predicate SignatureOk(c: Crypto, digest: bytes, s: Signature, address: Bytes20)
    requires KeccakWidth(c)
  {
    Recovers(c, SigRecord(s), digest, address)
  }

  function VerifySignature(c: Crypto, digest: bytes, s: Signature, address: Bytes20): (ok: bool)
    requires KeccakWidth(c)
    ensures ok <==> SignatureOk(c, digest, s, address)
  {
    var pk := c.recover(digest, s.data[64], s.data[..32], s.data[32..64]);
    assert SigRecord(s)[1..33] == s.data[..32] && SigRecord(s)[33..65] == s.data[32..64];
    pk.Some? && AddressOf(c, pk.value) == address
  }

  /** Signatures of strictly increasing guardians, each valid, no address used twice. */
  ghost predicate SignaturesOk(c: Crypto, digest: bytes, sigs: seq<Signature>, addresses: seq<Bytes20>)
    requires KeccakWidth(c)
  {
    && |sigs| <= |addresses|
    && (forall j :: 0 <= j < |sigs| ==> (sigs[j].index as int) < |addresses|)
    && (forall i, j :: 0 <= i < j < |sigs| ==> sigs[i].index < sigs[j].index)
    && (forall j :: 0 <= j < |sigs| ==> SignatureOk(c, digest, sigs[j], addresses[sigs[j].index]))
    && (forall i, j :: 0 <= i < j < |sigs| ==> addresses[sigs[i].index] != addresses[sigs[j].index])
  }

  /** The checks made on signature `n`, given that the ones before it passed. */
  ghost predicate NextOk(c: Crypto, digest: bytes, sigs: seq<Signature>, addresses: seq<Bytes20>, n: nat)
    requires KeccakWidth(c) && n < |sigs|
    requires forall j :: 0 <= j < n ==> (sigs[j].index as int) < |addresses|
  {
    && sigs[n].index as int < |addresses|
    && (n > 0 ==> sigs[n - 1].index < sigs[n].index)
    && SignatureOk(c, digest, sigs[n], addresses[sigs[n].index])
    && forall j :: 0 <= j < n ==> addresses[sigs[j].index] != addresses[sigs[n].index]
  }

  lemma SignaturesExtend(c: Crypto, digest: bytes, sigs: seq<Signature>, addresses: seq<Bytes20>, n: nat)
    requires KeccakWidth(c) && n < |sigs| <= |addresses|
    requires SignaturesOk(c, digest, sigs[..n], addresses)
    ensures forall j :: 0 <= j < n ==> sigs[j] == sigs[..n][j]
    ensures SignaturesOk(c, digest, sigs[..n + 1], addresses) <==> NextOk(c, digest, sigs, addresses, n)
  {
    assert forall j :: 0 <= j < n ==> sigs[j] == sigs[..n][j];
    assert sigs[..n + 1] == sigs[..n] + [sigs[n]];
    hide SignatureOk;
    if SignaturesOk(c, digest, sigs[..n + 1], addresses) {
      assert sigs[..n + 1][n] == sigs[n] && (n > 0 ==> sigs[..n + 1][n - 1] == sigs[n - 1]);
    }
  }

  lemma SignaturesPrefix(c: Crypto, digest: bytes, sigs: seq<Signature>, addresses: seq<Bytes20>, n: nat)
    requires KeccakWidth(c) && n <= |sigs|
    ensures SignaturesOk(c, digest, sigs, addresses) ==> SignaturesOk(c, digest, sigs[..n], addresses)
  {
  }

  method VerifySignatures(c: Crypto, digest: bytes, sigs: seq<Signature>, addresses: seq<Bytes20>) returns (ok: bool)
    requires KeccakWidth(c)
    ensures ok <==> SignaturesOk(c, digest, sigs, addresses)
  {
    if |addresses| < |sigs| { return false; }
    var lastIndex: int := -1;
    var signing: seq<Bytes20> := [];
    ok := true;
    for n := 0 to |sigs|
      invariant SignaturesOk(c, digest, sigs[..n], addresses)
      invariant lastIndex == if n == 0 then -1 else sigs[n - 1].index
      invariant |signing| == n && forall j :: 0 <= j < n ==>
                (sigs[j].index as int) < |addresses| && signing[j] == addresses[sigs[j].index]
    {
      hide SignaturesOk, SignatureOk, KeccakWidth;
      SignaturesExtend(c, digest, sigs, addresses, n);
      ok := CheckNext(c, digest, sigs[n], addresses, lastIndex, signing);
      assert ok <==> NextOk(c, digest, sigs, addresses, n);
      if !ok {
        SignaturesPrefix(c, digest, sigs, addresses, n + 1);
        return;
      }
      lastIndex := sigs[n].index;
      signing := signing + [addresses[sigs[n].index]];
    }
    assert sigs[..|sigs|] == sigs;
  }

  /** One iteration of the signature loop: range, order, validity and repeated signer. */
  method CheckNext(c: Crypto, digest: bytes, s: Signature, addresses: seq<Bytes20>, lastIndex: int,
                   signing: seq<Bytes20>)
    returns (ok: bool)
    requires KeccakWidth(c)
    ensures ok <==> s.index as int < |addresses| && s.index > lastIndex
                    && SignatureOk(c, digest, s, addresses[s.index]) && addresses[s.index] !in signing
  {
    if s.index as int >= |addresses| { return false; }
    if s.index <= lastIndex { return false; }
    var addr := addresses[s.index];
    if !VerifySignature(c, digest, s, addr) { return false; }
    for k := 0 to |signing|
      invariant forall j :: 0 <= j < k ==> signing[j] != addr
    {
      if signing[k] == addr { return false; }
    }
    ok := true;
  }

  /** What Verify promises: a quorum of valid signatures over this VAA's digest. */
  ghost predicate Verified(c: Crypto, v: VAA, addresses: seq<Bytes20>)
    requires KeccakWidth(c)
  {
    && 0 < |v.signatures|
    && 3 * |v.signatures| > 2 * |addresses|
    && SignaturesOk(c, DoubleKeccak(c, Body(v)), v.signatures, addresses)
  }

  /** A nil address list is refused; an empty one can never verify. */
  method Verify(c: Crypto, v: VAA, addresses: Option<seq<Bytes20>>) returns (ok: bool)
    requires KeccakWidth(c)
    ensures ok <==> addresses.Some? && Verified(c, v, addresses.value)
  {
    if addresses == None || |v.signatures| == 0 { return false; }
    var quorum := CalculateQuorum(|addresses.value|);
    if |v.signatures| < quorum.value { return false; }
    ok := VerifySignatures(c, DoubleKeccak(c, Body(v)), v.signatures, addresses.value);
  }

  /**
   * Verification spelled out: more than two thirds of the guardians, in strictly increasing order and with distinct
   * addresses, and for each the public key recovered over the twice hashed body has the guardian's address.
   */
  lemma VerifiedSpelledOut(c: Crypto, v: VAA, addresses: seq<Bytes20>)
    requires KeccakWidth(c)
    ensures Verified(c, v, addresses) <==>
      && 0 < |v.signatures| <= |addresses| && 3 * |v.signatures| > 2 * |addresses|
      && (forall i, j :: 0 <= i < j < |v.signatures| ==> v.signatures[i].index < v.signatures[j].index)
      && (forall j :: 0 <= j < |v.signatures| ==> RecoversTo(c, v, v.signatures[j], addresses))
      && (forall i, j :: 0 <= i < j < |v.signatures| ==>
            addresses[v.signatures[i].index] != addresses[v.signatures[j].index])
  {
    hide Body;
    forall j | 0 <= j < |v.signatures| && (v.signatures[j].index as int) < |addresses|
      ensures RecoversTo(c, v, v.signatures[j], addresses) <==>
        SignatureOk(c, DoubleKeccak(c, Body(v)), v.signatures[j], addresses[v.signatures[j].index])
    {
      var r := SigRecord(v.signatures[j]);
      assert r[1..33] == v.signatures[j].data[..32] && r[33..65] == v.signatures[j].data[32..64];
    }
  }

  ghost predicate RecoversTo(c: Crypto, v: VAA, s: Signature, addresses: seq<Bytes20>)
  {
    && (s.index as int) < |addresses|
    && var pk := c.recover(c.keccak256(c.keccak256(Body(v))), s.data[64], s.data[..32], s.data[32..64]);
    && pk.Some? && |c.keccak256(pk.value)| == 32 && c.keccak256(pk.value)[12..32] == addresses[s.index]
  }

  // ---- Quorum intersection ----

  ghost function Signers(sigs: seq<Signature>): set<int>
  {
    set j | 0 <= j < |sigs| :: sigs[j].index as int
  }

  lemma {:induction false} SignerCount(sigs: seq<Signature>)
    requires forall i, j :: 0 <= i < j < |sigs| ==> sigs[i].index < sigs[j].index
    ensures |Signers(sigs)| == |sigs|
  {
    if sigs != [] {
      var n := |sigs| - 1;
      SignerCount(sigs[..n]);
      assert Signers(sigs) == Signers(sigs[..n]) + {sigs[n].index as int};
    }
  }

  ghost function Guardians(n: nat): (s: set<int>)
    ensures forall i :: i in s <==> 0 <= i < n
  {
    if n == 0 then {} else Guardians(n - 1) + {n - 1}
  }

  lemma {:induction false} GuardianCount(n: nat)
    ensures |Guardians(n)| == n
  {
    if n != 0 {
      GuardianCount(n - 1);
    }
  }

  lemma CardinalityMeet(a: set<int>, b: set<int>, n: nat)
    requires a <= Guardians(n) && b <= Guardians(n)
    ensures |a * b| >= |a| + |b| - n
  {
    GuardianCount(n);
    Subset(a + b, Guardians(n));
    assert |a + b| + |a * b| == |a| + |b|;
  }

  lemma {:induction false} Subset(a: set<int>, b: set<int>)
    requires a <= b
    ensures |a| <= |b|
  {
    assert b == a + (b - a);
  }

  /** Two VAAs verified against the same guardians share more than a third of them. */
  lemma QuorumIntersection(c: Crypto, v: VAA, w: VAA, addresses: seq<Bytes20>)
    requires KeccakWidth(c) && Verified(c, v, addresses) && Verified(c, w, addresses)
    ensures 3 * |Signers(v.signatures) * Signers(w.signatures)| > |addresses|
  {
    SignerCount(v.signatures);
    SignerCount(w.signatures);
    CardinalityMeet(Signers(v.signatures), Signers(w.signatures), |addresses|);
  }

  /** With at most a third of the guardians faulty, some correct guardian signed both. */
  lemma CorrectGuardianSignedBoth(c: Crypto, v: VAA, w: VAA, addresses: seq<Bytes20>, faulty: set<int>)
    requires KeccakWidth(c) && Verified(c, v, addresses) && Verified(c, w, addresses)
    requires 3 * |faulty| <= |addresses|
    ensures exists g, i, j ::
      && g !in faulty && 0 <= i < |v.signatures| && 0 <= j < |w.signatures|
      && v.signatures[i].index == g == w.signatures[j].index
      && SignatureOk(c, DoubleKeccak(c, Body(v)), v.signatures[i], addresses[g])
      && SignatureOk(c, DoubleKeccak(c, Body(w)), w.signatures[j], addresses[g])
  {
    QuorumIntersection(c, v, w, addresses);
    var both := Signers(v.signatures) * Signers(w.signatures);
    if both <= faulty {
      Subset(both, faulty);
      assert false;
    }
    var g :| g in both && g !in faulty;
    var i :| 0 <= i < |v.signatures| && v.signatures[i].index == g;
    var j :| 0 <= j < |w.signatures| && w.signatures[j].index == g;
  }
}
