/** The stateless program that checks one chunk of a VAA's signatures against a list of keys. */
module VaaVerify {
  import opened Bytes
  import opened Cryptography
  import opened Transactions

  /** Record `k` is there, has a key, and recovers to it. */
  ghost predicate RecordOk(c: Crypto, sigs: bytes, digest: bytes, keys: bytes, k: nat)
    requires KeccakWidth(c)
  {
    && 66 * k + 66 <= |sigs| && 20 * k + 20 <= |keys|
    && Recovers(c, sigs[66 * k..66 * k + 66], digest, keys[20 * k..20 * k + 20])
  }

  /** Whole 66-byte records, a key for each, and every record recovers to its key. */
  ghost predicate SigCheckOk(c: Crypto, sigs: bytes, digest: bytes, keys: bytes)
    requires KeccakWidth(c)
  {
    && |sigs| % 66 == 0
    && |keys| >= 20 * (|sigs| / 66)
    && forall k :: 0 <= k < |sigs| / 66 ==> RecordOk(c, sigs, digest, keys, k)
  }

  /** The loop over signatures; an extraction out of range is a panic, that is, a refusal. */
  method SigCheck(c: Crypto, sigs: bytes, digest: bytes, keys: bytes) returns (ok: bool)
    requires KeccakWidth(c)
    ensures ok <==> SigCheckOk(c, sigs, digest, keys)
  {
    var si, ki := 0, 0;
    ghost var k := 0;
    while si < |sigs|
      invariant 0 <= si <= |sigs| && si == 66 * k && ki == 20 * k
      invariant ki <= |keys|
      invariant forall i :: 0 <= i < k ==> RecordOk(c, sigs, digest, keys, i)
    {
      if si + 66 > |sigs| {
        assert |sigs| % 66 != 0;
        return false;
      }
      var pk := c.recover(digest, sigs[si + 65], sigs[si + 1..si + 33], sigs[si + 33..si + 65]);
      SubSlice(sigs, si, si + 66, 1, 33);
      SubSlice(sigs, si, si + 66, 33, 65);
      if pk == None || ki + 20 > |keys| || keys[ki..ki + 20] != AddressOf(c, pk.value) {
        assert !RecordOk(c, sigs, digest, keys, k);
        return false;
      }
      si := si + 66;
      ki := ki + 20;
      k := k + 1;
    }
    ok := true;
  }

  /** What a transaction signed by the program has passed. */
  ghost predicate ProgramOk(c: Crypto, t: Txn)
    requires KeccakWidth(c)
  {
    && t.rekeyTo == ZERO_ADDRESS && t.fee == 0 && t.kind == ApplicationCall
    && |t.args| >= 4 && SigCheckOk(c, t.args[1], t.args[3], t.args[2])
  }

  method VaaVerifyProgram(c: Crypto, t: Txn) returns (ok: bool)
    requires KeccakWidth(c)
    ensures ok <==> ProgramOk(c, t)
  {
    if t.rekeyTo != ZERO_ADDRESS || t.fee != 0 || t.kind != ApplicationCall || |t.args| < 4 {
      return false;
    }
    ok := SigCheck(c, t.args[1], t.args[3], t.args[2]);
  }

  /** Only the program itself can send from its own hash. */
  ghost predicate ProgramSigned(c: Crypto, programHash: bytes, group: seq<Txn>)
    requires KeccakWidth(c)
  {
    forall i :: 0 <= i < |group| && group[i].sender == programHash ==> ProgramOk(c, group[i])
  }
}
