/** The client's submitVAA: how it cuts the signatures into verifySigs transactions, and why the contract agrees. */
module Client {
  import opened Bytes
  import opened Cryptography
  import opened Guardians
  import opened LocalBlob
  import opened Quorum
  import opened TmplSig
  import opened Transactions
  import opened Vaa
  import opened VaaVerify
  import opened VerifyVaa

  /** Bytes of the nine signatures that fit into one transaction. */
  const BLOCK: nat := 594

  /** Everything submitVAA needs besides the VAA. */
  datatype Config = Config(c: Crypto, coreId: nat, programHash: bytes, sender: bytes, accounts: seq<bytes>, keys: bytes)

  function Min(a: nat, b: nat): nat
  {
    if a < b then a else b
  }

  /** A Python slice: bounds beyond the end are clamped. */
  function Clamp(s: bytes, a: nat, b: nat): bytes
  {
    if a < b then s[Min(a, |s|)..Min(b, |s|)] else []
  }

  function Signatures(vaa: bytes): bytes
    requires |vaa| > 5
  {
    Clamp(vaa, 6, 6 + 66 * NumSigs(vaa))
  }

  function Blocks(vaa: bytes): nat
    requires |vaa| > 5
  {
    |Signatures(vaa)| / BLOCK + if NumSigs(vaa) % 9 != 0 then 1 else 0
  }

  function Call(k: Config, sender: bytes, fee: nat, args: seq<bytes>): Txn
  {
    AppCall(sender, fee, k.coreId, args, [sender] + k.accounts)
  }

  function Piece(vaa: bytes, i: nat): bytes
    requires |vaa| > 5
  {
    Clamp(Signatures(vaa), i * BLOCK, i * BLOCK + BLOCK)
  }

  /** The verifySigs transaction of block `i`, with the keys `kset`. */
  function SigsTxn(k: Config, vaa: bytes, i: nat, kset: bytes): Txn
    requires |vaa| > 5
  {
    Call(k, k.programHash, 0,
         [VERIFY_SIGS, Piece(vaa, i), kset, DoubleKeccak(k.c, Clamp(vaa, 6 + 66 * NumSigs(vaa), |vaa|))])
  }

  /** Every guardian named in the chunk has its key in the client's copy of the set. */
  ghost predicate KeysKnown(keys: bytes, chunk: bytes)
  {
    forall q :: 0 <= q < |chunk| / 66 ==> 21 + 20 * IndexIn(chunk, q) <= |keys|
  }

  lemma ClampedKey(keys: bytes, g: nat)
    requires 21 + 20 * g <= |keys|
    ensures Clamp(keys, g * 20 + 1, (g + 1) * 20 + 1) == KeyAt(keys[1..], g)
  {
    SubSlice(keys, 1, |keys|, 20 * g, 20 * g + 20);
  }

  /** One more record: the client appends the key of its guardian. */
  lemma KeyTaken(keys: bytes, chunk: bytes, q: nat, next: nat)
    requires |keys| > 0 && KeysKnown(keys, chunk) && next == q + 1 <= |chunk| / 66
    ensures var g: int := chunk[66 * q];
      KeysFor(keys[1..], chunk[..66 * next]) ==
        KeysFor(keys[1..], chunk[..66 * q]) + Clamp(keys, g * 20 + 1, (g + 1) * 20 + 1)
  {
    var g: int := chunk[66 * q];
    assert 21 + 20 * g <= |keys| by {
      assert IndexIn(chunk, q) == g;
    }
    ClampedKey(keys, g);
    hide KeyAt, Clamp, KeysKnown;
    var longer := chunk[..66 * next];
    assert |longer| == 66 * q + 66;
    assert longer[..66 * q] == chunk[..66 * q] && longer[66 * q] == g;
  }

  /** The key string of one chunk; the first byte of the key blob is the guardian count. */
  method CollectKeys(keys: bytes, chunk: bytes) returns (kset: bytes)
    ensures |keys| > 0 && |chunk| % 66 == 0 && KeysKnown(keys, chunk) ==> kset == KeysFor(keys[1..], chunk)
  {
    kset := [];
    assert chunk[..0] == [];
    hide KeysFor, KeysKnown;
    for q := 0 to |chunk| / 66
      invariant |keys| > 0 && KeysKnown(keys, chunk) ==> kset == KeysFor(keys[1..], chunk[..66 * q])
    {
      var g: int := chunk[q * 66];
      var key := Clamp(keys, g * 20 + 1, (g + 1) * 20 + 1);
      if |keys| > 0 && KeysKnown(keys, chunk) {
        KeyTaken(keys, chunk, q, q + 1);
      }
      kset := kset + key;
    }
    assert |chunk| % 66 == 0 ==> chunk[..66 * (|chunk| / 66)] == chunk;
  }

  /** What submitVAA puts into block `i`. */
  ghost predicate BlockIs(k: Config, vaa: bytes, i: nat, t: Txn)
    requires |vaa| > 5
  {
    && |t.args| == 4 && t == SigsTxn(k, vaa, i, t.args[2])
    && (|k.keys| > 0 && |Piece(vaa, i)| % 66 == 0 && KeysKnown(k.keys, Piece(vaa, i)) ==>
          t.args[2] == KeysFor(k.keys[1..], Piece(vaa, i)))
  }

  /** Block `i` of the signatures, cut as submitVAA cuts it, with its keys. */
  method BuildBlock(k: Config, vaa: bytes, i: nat) returns (t: Txn)
    requires |vaa| > 5
    ensures BlockIs(k, vaa, i, t)
  {
    var signatures := Signatures(vaa);
    var sigs := signatures[Min(i * BLOCK, |signatures|)..];
    if |sigs| > BLOCK {
      sigs := sigs[..BLOCK];
    }
    assert sigs == Piece(vaa, i);
    var kset := CollectKeys(k.keys, sigs);
    var digest := DoubleKeccak(k.c, Clamp(vaa, 6 + 66 * NumSigs(vaa), |vaa|));
    t := Call(k, k.programHash, 0, [VERIFY_SIGS, sigs, kset, digest]);
  }

  /** The group is the one submitVAA sends: one verifySigs transaction per block, then verifyVAA. */
  ghost predicate GroupIs(k: Config, vaa: bytes, fee: nat, txns: seq<Txn>)
    requires |vaa| > 5
  {
    && |txns| == Blocks(vaa) + 1
    && txns[Blocks(vaa)] == Call(k, k.sender, fee, [VERIFY_VAA, vaa])
    && forall i :: 0 <= i < Blocks(vaa) ==> BlockIs(k, vaa, i, txns[i])
  }

  method BuildGroup(k: Config, vaa: bytes, fee: nat) returns (txns: seq<Txn>)
    requires |vaa| > 5
    ensures GroupIs(k, vaa, fee, txns)
  {
    var blocks := |Signatures(vaa)| / BLOCK + if NumSigs(vaa) % 9 != 0 then 1 else 0;
    txns := [];
    for i := 0 to blocks
      invariant |txns| == i
      invariant forall b :: 0 <= b < i ==> BlockIs(k, vaa, b, txns[b])
    {
      var t := BuildBlock(k, vaa, i);
      txns := txns + [t];
    }
    txns := txns + [Call(k, k.sender, fee, [VERIFY_VAA, vaa])];
  }

  // ---- Client and contract agree ----

  /** A VAA that carries nothing but vouched signatures of distinct guardians. */
  ghost predicate Signed(c: Crypto, e: Expect)
    requires KeccakWidth(c)
  {
    && |e.vaa| > 5 && |e.keys| == 20 * e.count
    && var m := NumSigs(e.vaa);
    && 0 < m && 6 + 66 * m <= |e.vaa|
    && IndicesOk(e.vaa, e.count, m)
    && e.digest == DoubleKeccak(c, e.vaa[6 + 66 * m..])
    && forall j :: 0 <= j < m ==> Vouched(c, e, j)
  }

  /** The client has the same keys and program hash as the contract, and sends the VAA itself. */
  ghost predicate Equipped(c: Crypto, k: Config, e: Expect, fee: nat)
  {
    && k.c == c && k.programHash == e.programHash && |k.accounts| >= 2
    && 1 + 20 * e.count <= |k.keys| && k.keys[1..1 + 20 * e.count] == e.keys
    && e.me == Call(k, k.sender, fee, [VERIFY_VAA, e.vaa])
  }

  /** Signatures in the first `i` blocks. */
  function Upto(i: nat, m: nat): nat
  {
    Min(9 * i, m)
  }

  lemma BlockCount(vaa: bytes)
    requires |vaa| > 5 && 0 < NumSigs(vaa) && 6 + 66 * NumSigs(vaa) <= |vaa|
    ensures Signatures(vaa) == vaa[6..6 + 66 * NumSigs(vaa)]
    ensures Blocks(vaa) > 0 && Upto(Blocks(vaa), NumSigs(vaa)) == NumSigs(vaa)
    ensures forall i :: 0 <= i < Blocks(vaa) ==> Upto(i, NumSigs(vaa)) < Upto(i + 1, NumSigs(vaa))
  {
  }

  /** Block `i` holds the signatures from `Upto(i)` to `Upto(i + 1)`. */
  lemma PieceIs(vaa: bytes, i: nat)
    requires |vaa| > 5 && 0 < NumSigs(vaa) && 6 + 66 * NumSigs(vaa) <= |vaa| && i < Blocks(vaa)
    ensures var m := NumSigs(vaa);
      && Upto(i, m) < Upto(i + 1, m) <= m
      && Piece(vaa, i) == vaa[6 + 66 * Upto(i, m)..6 + 66 * Upto(i + 1, m)]
  {
    var m := NumSigs(vaa);
    BlockCount(vaa);
    assert Piece(vaa, i) == Signatures(vaa)[66 * Upto(i, m)..66 * Upto(i + 1, m)];
    SubSlice(vaa, 6, 6 + 66 * m, 66 * Upto(i, m), 66 * Upto(i + 1, m));
  }

  /** The key string depends only on the keys of the guardians named. */
  lemma {:induction false} KeysForSame(x: bytes, y: bytes, count: nat, chunk: bytes)
    requires 20 * count <= |x| && 20 * count <= |y| && x[..20 * count] == y[..20 * count]
    requires |chunk| % 66 == 0 && forall i :: 0 <= i < |chunk| / 66 ==> IndexIn(chunk, i) < count
    ensures KeysFor(x, chunk) == KeysFor(y, chunk)
    decreases |chunk|
  {
    if chunk != [] {
      var n := |chunk| / 66 - 1;
      var init := chunk[..|chunk| - 66];
      assert forall i :: 0 <= i < n ==> IndexIn(init, i) == IndexIn(chunk, i);
      KeysForSame(x, y, count, init);
      var g := IndexIn(chunk, n);
      assert g == chunk[|chunk| - 66];
      SubSlice(x, 0, 20 * count, 20 * g, 20 * g + 20);
      SubSlice(y, 0, 20 * count, 20 * g, 20 * g + 20);
    }
  }

  /** A chunk of vouched signatures with the right key string passes the stateless program. */
  lemma ChunkPasses(c: Crypto, e: Expect, s: bytes, j: nat)
    requires KeccakWidth(c) && |e.keys| == 20 * e.count && ChunkOk(e, s, j)
    requires forall k :: j <= k < j + |s| / 66 ==> Vouched(c, e, k)
    ensures SigCheckOk(c, s, e.digest, KeysFor(e.keys, s))
    ensures forall i :: 0 <= i < |s| / 66 ==> IndexIn(s, i) < e.count
  {
    forall i | 0 <= i < |s| / 66
      ensures IndexIn(s, i) < e.count
    {
      ChunkRecord(e.vaa, s, j, i);
      assert IndexAt(e.vaa, j + i) < e.count;
    }
    KeysForLength(e.keys, e.count, s, |s| / 66);
    forall i | 0 <= i < |s| / 66
      ensures RecordOk(c, s, e.digest, KeysFor(e.keys, s), i)
    {
      KeysForAt(e.keys, e.count, s, |s| / 66, i);
      ChunkRecord(e.vaa, s, j, i);
      assert Vouched(c, e, j + i);
    }
  }

  lemma KeyStringAgrees(keys: bytes, e: Expect, s: bytes)
    requires |e.keys| == 20 * e.count && 1 + 20 * e.count <= |keys| && keys[1..1 + 20 * e.count] == e.keys
    requires |s| % 66 == 0 && forall i :: 0 <= i < |s| / 66 ==> IndexIn(s, i) < e.count
    ensures KeysKnown(keys, s) && KeysFor(keys[1..], s) == KeysFor(e.keys, s)
  {
    SubSlice(keys, 1, |keys|, 0, 20 * e.count);
    KeysForSame(keys[1..], e.keys, e.count, s);
  }

  /** The chunk of block `i` continues the walk, passes the stateless program, and the client knows its keys. */
  ghost predicate PieceFits(c: Crypto, e: Expect, keys: bytes, s: bytes, j: nat, next: nat)
    requires KeccakWidth(c) && |keys| > 0
  {
    && ChunkOk(e, s, j) && j + |s| / 66 == next && |s| > 0
    && SigCheckOk(c, s, e.digest, KeysFor(e.keys, s))
    && KeysKnown(keys, s) && KeysFor(keys[1..], s) == KeysFor(e.keys, s)
  }

  lemma PieceAgrees(c: Crypto, e: Expect, keys: bytes, i: nat)
    requires KeccakWidth(c) && Signed(c, e) && i < Blocks(e.vaa)
    requires 1 + 20 * e.count <= |keys| && keys[1..1 + 20 * e.count] == e.keys
    ensures PieceFits(c, e, keys, Piece(e.vaa, i), Upto(i, NumSigs(e.vaa)), Upto(i + 1, NumSigs(e.vaa)))
  {
    var s, m := Piece(e.vaa, i), NumSigs(e.vaa);
    PieceIs(e.vaa, i);
    assert ChunkOk(e, s, Upto(i, m));
    ChunkPasses(c, e, s, Upto(i, m));
    KeyStringAgrees(keys, e, s);
  }

  /** The transaction is one step of the walk, from signature `j` to signature `next`. */
  ghost predicate Steps(e: Expect, t: Txn, j: nat, next: nat)
  {
    StepOk(e, t, j) && j + |ChunkOf(t)| / 66 == next
  }

  /** The transaction that carries chunk `s`, as the contract expects it. */
  function ChunkTxn(k: Config, e: Expect, s: bytes): Txn
  {
    Call(k, k.programHash, 0, [VERIFY_SIGS, s, KeysFor(e.keys, s), e.digest])
  }

  lemma BlockIsChunk(c: Crypto, k: Config, e: Expect, fee: nat, t: Txn, i: nat, j: nat, next: nat)
    requires KeccakWidth(c) && Equipped(c, k, e, fee) && |e.vaa| > 5 && 6 + 66 * NumSigs(e.vaa) <= |e.vaa|
    requires e.digest == DoubleKeccak(c, e.vaa[6 + 66 * NumSigs(e.vaa)..])
    requires BlockIs(k, e.vaa, i, t) && PieceFits(c, e, k.keys, Piece(e.vaa, i), j, next)
    ensures t == ChunkTxn(k, e, Piece(e.vaa, i))
  {
    assert |Piece(e.vaa, i)| % 66 == 0;
    hide KeysFor, SigCheckOk, KeysKnown, ChunkOk, Piece, Signatures, DoubleKeccak;
    assert Clamp(e.vaa, 6 + 66 * NumSigs(e.vaa), |e.vaa|) == e.vaa[6 + 66 * NumSigs(e.vaa)..];
  }

  /** A chunk that fits is approved by the stateless program and is a step of the walk. */
  lemma ChunkAgrees(c: Crypto, k: Config, e: Expect, fee: nat, s: bytes, j: nat, next: nat)
    requires KeccakWidth(c) && Equipped(c, k, e, fee) && PieceFits(c, e, k.keys, s, j, next)
    ensures Steps(e, ChunkTxn(k, e, s), j, next) && ProgramOk(c, ChunkTxn(k, e, s))
  {
    hide KeysFor, SigCheckOk, KeysKnown, ChunkOk;
    var t := ChunkTxn(k, e, s);
    assert t.args[1] == s && t.args[2] == KeysFor(e.keys, s) && t.args[3] == e.digest;
    assert ChunkOf(t) == s;
  }

  /** Transaction `b` accounts for the signatures of block `b`. */
  ghost predicate ClientStep(e: Expect, group: seq<Txn>, b: nat)
    requires |e.vaa| > 5 && b < |group|
  {
    Steps(e, group[b], Upto(b, NumSigs(e.vaa)), Upto(b + 1, NumSigs(e.vaa)))
  }

  lemma {:induction false} ClientWalk(e: Expect, group: seq<Txn>, i: nat)
    requires |e.vaa| > 5 && i <= |group| && forall b :: 0 <= b < i ==> ClientStep(e, group, b)
    ensures RunOk(e, group, 0, i, Upto(i, NumSigs(e.vaa)))
    decreases i
  {
    hide RunOk, StepOk, ChunkOf;
    if i == 0 {
      WalkBegins(e, group, 0);
    } else {
      ClientWalk(e, group, i - 1);
      assert ClientStep(e, group, i - 1);
      hide Upto;
      WalkNext(e, group, 0, i - 1, Upto(i - 1, NumSigs(e.vaa)));
    }
  }

  lemma {:induction false} WalkStartsAtZero(k: Config, vaa: bytes, group: seq<Txn>, i: nat)
    requires |vaa| > 5 && i <= |group| && forall b :: 0 <= b < i ==> BlockIs(k, vaa, b, group[b])
    ensures WalkStart(group, i) == 0
    decreases i
  {
    if i > 0 {
      WalkStartsAtZero(k, vaa, group, i - 1);
    }
  }

  // ---- From Go's Verify ----

  /** The contract stores the set and the client holds a copy of it; the set has not expired. */
  ghost predicate Prepared(w: View, k: Config, v: VAA, addresses: seq<Bytes20>)
  {
    && ValidView(w) && k.c == w.c && k.programHash == w.programHash
    && var n := |addresses|;
    && 1 + 20 * n < MAX_BYTES && |k.accounts| >= 2
    && var guardians := k.accounts[1];
    && guardians == SigAddress(w.c, w.app, v.guardianSetIndex, GUARDIAN)
    && guardians in w.local && w.local[guardians].meta == Some(GUARDIAN)
    && var f := Flat(w.local[guardians]);
    && f[0] == n && f[1..1 + 20 * n] == KeyBytes(addresses)
    && (ToInt(f[1000..1008]) == 0 || w.now < ToInt(f[1000..1008]))
    && 1 + 20 * n <= |k.keys| && k.keys[1..1 + 20 * n] == KeyBytes(addresses)
  }

  ghost function Wanted(k: Config, v: VAA, addresses: seq<Bytes20>, fee: nat): Expect
  {
    Expect(Call(k, k.sender, fee, [VERIFY_VAA, Encode(v)]), Encode(v), |addresses|, KeyBytes(addresses),
           DoubleKeccak(k.c, Body(v)), k.programHash)
  }

  /** The contract loads exactly the set the VAA was verified against. */
  lemma LoadsSet(w: View, k: Config, v: VAA, addresses: seq<Bytes20>, fee: nat)
    requires Prepared(w, k, v, addresses) && Verified(w.c, v, addresses)
    ensures var e := Wanted(k, v, addresses, fee); SetOk(w, e.me) && Expected(w, e.me) == e
  {
    hide SigAddress, SignatureOk, KeyBytes, Encode, Body;
    var e := Wanted(k, v, addresses, fee);
    EncodeLayout(v);
    Reads(v.guardianSetIndex, 4);
    assert NumSigs(e.vaa) == |v.signatures|;
    assert e.me.accounts[2] == k.accounts[1];
  }

  /** Go's check of one signature is the contract's. */
  lemma SignatureAgrees(c: Crypto, e: Expect, v: VAA, addresses: seq<Bytes20>, j: nat)
    requires KeccakWidth(c) && j < |v.signatures| && (v.signatures[j].index as int) < |addresses|
    requires SignatureOk(c, e.digest, v.signatures[j], addresses[v.signatures[j].index])
    requires e.vaa == Encode(v) && e.keys == KeyBytes(addresses)
    ensures Vouched(c, e, j)
  {
    EncodedSignature(v, j);
    KeyBytesAt(addresses, v.signatures[j].index);
    assert RecordAt(e.vaa, j) == SigRecord(v.signatures[j]);
    assert KeyAt(e.keys, IndexAt(e.vaa, j)) == addresses[v.signatures[j].index];
  }

  /** No signature names a guardian beyond the 32 that the contract's four bytes of hits can hold. */
  ghost predicate LowIndices(v: VAA)
  {
    forall j :: 0 <= j < |v.signatures| ==> v.signatures[j].index < 32
  }

  lemma VerifiedIndices(c: Crypto, v: VAA, addresses: seq<Bytes20>)
    requires KeccakWidth(c) && Verified(c, v, addresses)
    ensures |v.signatures| <= |addresses|
    ensures IndicesOk(Encode(v), |addresses|, |v.signatures|) <==> LowIndices(v)
  {
    forall j | 0 <= j < |v.signatures|
      ensures IndexAt(Encode(v), j) == v.signatures[j].index as int < |addresses|
    {
      EncodedSignature(v, j);
    }
  }

  lemma VerifiedVouched(c: Crypto, e: Expect, v: VAA, addresses: seq<Bytes20>)
    requires KeccakWidth(c) && SignaturesOk(c, e.digest, v.signatures, addresses)
    requires e.vaa == Encode(v) && e.keys == KeyBytes(addresses)
    ensures forall j :: 0 <= j < |v.signatures| ==> Vouched(c, e, j)
  {
    forall j | 0 <= j < |v.signatures|
      ensures Vouched(c, e, j)
    {
      SignatureAgrees(c, e, v, addresses, j);
    }
  }

  lemma VerifiedIsSigned(c: Crypto, e: Expect, v: VAA, addresses: seq<Bytes20>)
    requires KeccakWidth(c) && Verified(c, v, addresses) && LowIndices(v) && |addresses| < 256 && e.count == |addresses|
    requires e.vaa == Encode(v) && e.keys == KeyBytes(addresses) && e.digest == DoubleKeccak(c, Body(v))
    ensures Signed(c, e)
  {
    hide IndicesOk, Vouched, SignaturesOk, SignatureOk, KeyBytes, Body, Encode, LowIndices, DoubleKeccak;
    VerifiedIndices(c, v, addresses);
    VerifiedVouched(c, e, v, addresses);
    EncodeLayout(v);
    assert NumSigs(e.vaa) == |v.signatures| > 0;
  }

  /**
   * For every VAA that Go's Verify accepts and whose signers are all below 32, the group that submitVAA builds is
   * approved by verifyVAA, and each of its verifySigs transactions by the stateless program, whatever follows.
   */
  lemma ClientAgrees(w: View, k: Config, v: VAA, addresses: seq<Bytes20>, fee: nat, txns: seq<Txn>, rest: seq<Txn>)
    requires Prepared(w, k, v, addresses) && Verified(w.c, v, addresses) && LowIndices(v)
    requires GroupIs(k, Encode(v), fee, txns)
    ensures Accepted(w, txns + rest, |txns| - 1)
    ensures forall i :: 0 <= i < |txns| - 1 ==> ProgramOk(w.c, txns[i])
  {
    var e := Wanted(k, v, addresses, fee);
    VerifiedIsSigned(w.c, e, v, addresses);
    LoadsSet(w, k, v, addresses, fee);
    BlockCount(e.vaa);
    WalkAccepted(w, k, e, fee, txns, rest);
  }

  /** Sets of at most 32 keys have no other signers. */
  lemma SmallSetsAreLow(c: Crypto, v: VAA, addresses: seq<Bytes20>)
    requires KeccakWidth(c) && Verified(c, v, addresses) && |addresses| <= 32
    ensures LowIndices(v)
  {
  }

  /**
   * Go and the contract agree on exactly the verified VAAs without a signer at 32 or above; others the contract
   * refuses.
   */
  lemma AgreeExactly(w: View, k: Config, v: VAA, addresses: seq<Bytes20>, fee: nat, txns: seq<Txn>, rest: seq<Txn>)
    requires Prepared(w, k, v, addresses) && Verified(w.c, v, addresses)
    requires GroupIs(k, Encode(v), fee, txns)
    ensures Accepted(w, txns + rest, |txns| - 1) <==> LowIndices(v)
  {
    hide SigAddress, RunOk, BlockIs, LowIndices, IndicesOk, SignaturesOk;
    if LowIndices(v) {
      ClientAgrees(w, k, v, addresses, fee, txns, rest);
    }
    if Accepted(w, txns + rest, |txns| - 1) {
      AcceptedIndices(w, k, v, addresses, fee, txns, rest);
      VerifiedIndices(w.c, v, addresses);
    }
  }

  /** A toy scheme in which a signature names its own signer. */
  function ToyCrypto(): Crypto
  {
    Crypto((b: bytes) => b, (b: bytes) => ToyHash(b),
           (digest: bytes, v: byte, r: bytes, s: bytes) => Some([v] + Zeros(63)))
  }

  function ToyHash(b: bytes): bytes
  {
    Zeros(31) + [if |b| == 64 then b[0] else 0]
  }

  function ToyAddress(i: byte): Bytes20
  {
    Zeros(19) + [i]
  }

  function ToySignature(i: byte): Signature
  {
    Signature(i, Zeros(64) + [i])
  }

  lemma ToyRecovers(digest: bytes, i: byte)
    ensures KeccakWidth(ToyCrypto()) && SignatureOk(ToyCrypto(), digest, ToySignature(i), ToyAddress(i))
  {
    var record, pk := SigRecord(ToySignature(i)), [i] + Zeros(63);
    assert record[65] == i;
    assert |pk| == 64 && ToyHash(pk) == Zeros(31) + [i];
    assert (Zeros(31) + [i])[12..32] == ToyAddress(i);
  }

  /** Such VAAs exist: thirty-three guardians all sign. */
  lemma HighSignerExists()
    ensures KeccakWidth(ToyCrypto())
    ensures exists v: VAA, addresses: seq<Bytes20> ::
              |addresses| == 33 && Verified(ToyCrypto(), v, addresses) && !LowIndices(v)
  {
    hide SignatureOk, ToyCrypto, Body, DoubleKeccak;
    var c := ToyCrypto();
    ToyRecovers([], 0);
    var addresses: seq<Bytes20> := seq(33, i requires 0 <= i < 33 => ToyAddress(i));
    var sigs: seq<Signature> := seq(33, i requires 0 <= i < 33 => ToySignature(i));
    var v := VAA(1, 0, sigs, Time(0, 0), 0, 0, Zeros(32), 0, 0, []);
    forall j | 0 <= j < 33
      ensures sigs[j].index == j && SignatureOk(c, DoubleKeccak(c, Body(v)), sigs[j], addresses[j])
    {
      ToyRecovers(DoubleKeccak(c, Body(v)), j);
    }
    forall i, j | 0 <= i < j < 33
      ensures addresses[i] != addresses[j]
    {
      assert addresses[i][19] == i && addresses[j][19] == j;
    }
    assert v.signatures[32].index == 32;
    assert Verified(c, v, addresses) && !LowIndices(v);
  }

  lemma AcceptedIndices(w: View, k: Config, v: VAA, addresses: seq<Bytes20>, fee: nat, txns: seq<Txn>, rest: seq<Txn>)
    requires Prepared(w, k, v, addresses) && Verified(w.c, v, addresses) && GroupIs(k, Encode(v), fee, txns)
    ensures Accepted(w, txns + rest, |txns| - 1) ==> IndicesOk(Encode(v), |addresses|, |v.signatures|)
  {
    hide SigAddress, SignatureOk, BlockIs, Blocks, IndicesOk, Body, KeyBytes;
    var e := Wanted(k, v, addresses, fee);
    LoadsSet(w, k, v, addresses, fee);
    EncodeLayout(v);
    assert (txns + rest)[|txns| - 1] == e.me;
    assert NumSigs(e.vaa) == |v.signatures|;
  }

  lemma WalkAccepted(w: View, k: Config, e: Expect, fee: nat, txns: seq<Txn>, rest: seq<Txn>)
    requires ValidView(w) && Signed(w.c, e) && Equipped(w.c, k, e, fee) && GroupIs(k, e.vaa, fee, txns)
    requires SetOk(w, e.me) && Expected(w, e.me) == e
    ensures Accepted(w, txns + rest, |txns| - 1)
    ensures forall i :: 0 <= i < |txns| - 1 ==> ProgramOk(w.c, txns[i])
  {
    hide KeysFor, SigCheckOk, KeysKnown, ChunkOk, Piece, Signatures, SigAddress, Upto;
    var group, blocks, m := txns + rest, Blocks(e.vaa), NumSigs(e.vaa);
    BlockCount(e.vaa);
    assert group[blocks] == e.me;
    forall i | 0 <= i < blocks
      ensures ClientStep(e, group, i) && ProgramOk(w.c, txns[i])
    {
      assert group[i] == txns[i] && BlockIs(k, e.vaa, i, txns[i]);
      PieceAgrees(w.c, e, k.keys, i);
      BlockIsChunk(w.c, k, e, fee, txns[i], i, Upto(i, m), Upto(i + 1, m));
      ChunkAgrees(w.c, k, e, fee, Piece(e.vaa, i), Upto(i, m), Upto(i + 1, m));
    }
    ClientWalk(e, group, blocks);
    assert forall i :: 0 <= i < blocks ==> BlockIs(k, e.vaa, i, group[i]);
    WalkStartsAtZero(k, e.vaa, group, blocks);
    assert |group[blocks - 1].args| > 0;
  }
}
