/**
 * The core contract's verifyVAA: a quorum of guardian signatures, checked by earlier transactions of
 * the same group and tied together by a backward and a forward walk over that group.
 */
module VerifyVaa {
  import opened Bytes
  import opened Cryptography
  import opened LocalBlob
  import opened TmplSig
  import opened Transactions
  import opened VaaVerify

  /** What verifyVAA has in hand when it starts walking: its own transaction and the loaded guardian set. */
  datatype Expect = Expect(me: Txn, vaa: bytes, count: nat, keys: bytes, digest: bytes, programHash: bytes)

  // ---- What acceptance means ----

  /** Guardian index of signature `j`. */
  function IndexAt(vaa: bytes, j: nat): nat
  {
    if 6 + 66 * j < |vaa| then vaa[6 + 66 * j] else 0
  }

  /** The first `m` signatures name distinct guardians of the set, all below 32. */
  ghost predicate IndicesOk(vaa: bytes, count: nat, m: nat)
  {
    && (forall j :: 0 <= j < m ==> IndexAt(vaa, j) < 32 && IndexAt(vaa, j) < count)
    && (forall i, j :: 0 <= i < j < m ==> IndexAt(vaa, i) != IndexAt(vaa, j))
  }

  function KeyAt(keys: bytes, g: nat): bytes
  {
    if 20 * g + 20 <= |keys| then keys[20 * g..20 * g + 20] else []
  }

  /** The keys of the guardians named in a chunk of signature records, in order. */
  function KeysFor(keys: bytes, chunk: bytes): bytes
  {
    if |chunk| < 66 then []
    else KeysFor(keys, chunk[..|chunk| - 66]) + KeyAt(keys, chunk[|chunk| - 66])
  }

  predicate Envelope(e: Expect, t: Txn)
  {
    && t.kind == ApplicationCall && t.rekeyTo == ZERO_ADDRESS
    && t.applicationId == e.me.applicationId
    && |t.accounts| > 2 && |e.me.accounts| > 2
    && t.accounts[1] == e.me.accounts[1] && t.accounts[2] == e.me.accounts[2]
  }

  /** A verifySigs transaction checked these signatures against the right keys, for this VAA, by our program. */
  predicate SigsTxnOk(e: Expect, t: Txn)
  {
    && |t.args| >= 4 && |t.args[1]| > 0
    && t.args[2] == KeysFor(e.keys, t.args[1])
    && t.sender == e.programHash
    && t.args[3] == e.digest
  }

  predicate TxnOk(e: Expect, t: Txn)
  {
    Envelope(e, t) && (Calls(t, VERIFY_SIGS) ==> SigsTxnOk(e, t))
  }

  function ChunkOf(t: Txn): bytes
  {
    if Calls(t, VERIFY_SIGS) && |t.args| > 1 then t.args[1] else []
  }

  /** The signature chunks of the transactions from `lo` to `hi`, concatenated. */
  function Chunks(group: seq<Txn>, lo: nat, hi: nat): bytes
    requires lo <= hi <= |group|
  {
    if lo == hi then [] else Chunks(group, lo, hi - 1) + ChunkOf(group[hi - 1])
  }

  predicate Skippable(t: Txn)
  {
    Calls(t, VERIFY_SIGS) || Calls(t, NOP)
  }

  /** Start of the unbroken run of verifySigs and nop transactions that ends just before `i`. */
  function WalkStart(group: seq<Txn>, i: nat): (lo: nat)
    requires i <= |group|
    ensures lo <= i
  {
    if i == 0 || !Skippable(group[i - 1]) then i else WalkStart(group, i - 1)
  }

  /** Every transaction of the run is in order and the chunks are exactly the VAA's `m` signatures. */
  ghost predicate RunOk(e: Expect, group: seq<Txn>, lo: nat, hi: nat, m: nat)
    requires lo <= hi <= |group|
  {
    && (forall i :: lo <= i < hi ==> TxnOk(e, group[i]))
    && 6 + 66 * m <= |e.vaa| && Chunks(group, lo, hi) == e.vaa[6..6 + 66 * m]
    && IndicesOk(e.vaa, e.count, m)
  }

  /** The storage that verifyVAA reads. */
  datatype View = View(c: Crypto, app: App, programHash: bytes, now: nat, local: map<bytes, Local>)

  ghost predicate ValidView(w: View)
  {
    ValidApp(w.app) && KeccakWidth(w.c) && AllWellFormed(w.local)
  }

  ghost function SetBlob(w: View, t: Txn): (f: bytes)
    requires ValidView(w) && |t.accounts| > 2 && t.accounts[2] in w.local
    ensures |f| == MAX_BYTES
  {
    Flat(w.local[t.accounts[2]])
  }

  function NumSigs(vaa: bytes): nat
    requires |vaa| > 5
  {
    vaa[5]
  }

  /** The named guardian set is stored, is not empty, has not expired, and the VAA claims a quorum of it. */
  ghost predicate SetOk(w: View, t: Txn)
    requires ValidView(w)
  {
    && |t.args| > 1 && |t.accounts| > 2 && |t.args[1]| >= 6
    && var vaa, guardians := t.args[1], t.accounts[2];
    && guardians == SigAddress(w.c, w.app, ToInt(vaa[1..5]), GUARDIAN)
    && guardians in w.local && w.local[guardians].meta == Some(GUARDIAN)
    && var f := SetBlob(w, t); var n: int := f[0];
    && 0 < n && 1 + 20 * n < MAX_BYTES
    && (ToInt(f[1000..1008]) == 0 || w.now < ToInt(f[1000..1008]))
    && 6 + 66 * NumSigs(vaa) <= |vaa|
    && NumSigs(vaa) <= n && 3 * NumSigs(vaa) > 2 * n
  }

  ghost function Expected(w: View, t: Txn): Expect
    requires ValidView(w) && SetOk(w, t)
  {
    var f, vaa := SetBlob(w, t), t.args[1];
    var n: int := f[0];
    Expect(t, vaa, n, f[1..1 + 20 * n], DoubleKeccak(w.c, vaa[6 + 66 * NumSigs(vaa)..]), w.programHash)
  }

  /** verifyVAA at position `gi` of the group approves. */
  ghost predicate Accepted(w: View, group: seq<Txn>, gi: nat)
    requires ValidView(w) && gi < |group|
  {
    && SetOk(w, group[gi])
    && 0 < gi && |group[gi - 1].args| > 0
    && var e := Expected(w, group[gi]);
    && Envelope(e, group[gi])
    && RunOk(e, group, WalkStart(group, gi), gi, NumSigs(e.vaa))
  }

  // ---- The walk ----

  /** The chunk of `t` is the next part of the VAA's signatures. */
  ghost predicate ChunkOk(e: Expect, s: bytes, j: nat)
  {
    && |s| % 66 == 0 && 6 + 66 * j + |s| <= |e.vaa|
    && e.vaa[6 + 66 * j..6 + 66 * j + |s|] == s
    && IndicesOk(e.vaa, e.count, j + |s| / 66)
  }

  ghost predicate StepOk(e: Expect, t: Txn, j: nat)
  {
    TxnOk(e, t) && (Calls(t, VERIFY_SIGS) ==> ChunkOk(e, t.args[1], j))
  }

  lemma WalkNext(e: Expect, group: seq<Txn>, lo: nat, i: nat, j: nat)
    requires lo <= i < |group| && RunOk(e, group, lo, i, j) && StepOk(e, group[i], j)
    ensures RunOk(e, group, lo, i + 1, j + |ChunkOf(group[i])| / 66)
  {
    hide TxnOk, IndicesOk;
    var s := ChunkOf(group[i]);
    assert e.vaa[6 + 66 * j..6 + 66 * j + |s|] == s;
    assert e.vaa[6..6 + 66 * j] + s == e.vaa[6..6 + 66 * j + |s|];
  }

  lemma {:induction false} ChunksPrefix(group: seq<Txn>, lo: nat, i: nat, hi: nat)
    requires lo <= i <= hi <= |group|
    ensures Chunks(group, lo, i) <= Chunks(group, lo, hi)
    decreases hi - i
  {
    if i < hi {
      ChunksPrefix(group, lo, i, hi - 1);
    }
  }

  lemma NextPiece(vaa: bytes, j: nat, m: nat, s: bytes)
    requires 6 + 66 * j <= |vaa| && 6 + 66 * m <= |vaa|
    requires vaa[6..6 + 66 * j] + s <= vaa[6..6 + 66 * m]
    ensures 66 * j + |s| <= 66 * m && vaa[6 + 66 * j..6 + 66 * j + |s|] == s
  {
    var all := vaa[6..6 + 66 * m];
    assert all[66 * j..66 * j + |s|] == (vaa[6..6 + 66 * j] + s)[66 * j..];
    SubSlice(vaa, 6, 6 + 66 * m, 66 * j, 66 * j + |s|);
  }

  /** If the whole run is in order then so is the next step: a refused step refuses the run. */
  lemma WalkRefused(c: Crypto, e: Expect, group: seq<Txn>, lo: nat, i: nat, hi: nat, j: nat, m: nat)
    requires KeccakWidth(c) && ProgramSigned(c, e.programHash, group)
    requires lo <= i < hi <= |group| && RunOk(e, group, lo, i, j)
    ensures 6 + 66 * j <= |e.vaa| && IndicesOk(e.vaa, e.count, j)
    ensures RunOk(e, group, lo, hi, m) ==> StepOk(e, group[i], j)
  {
    hide KeysFor, IndicesOk, SigCheckOk, Envelope, Chunks, ChunkOk;
    if RunOk(e, group, lo, hi, m) {
      assert TxnOk(e, group[i]);
      ChunkSigned(c, e, group, i);
      ChunkContinues(e, group, lo, i, hi, j, m, ChunkOf(group[i]));
    }
  }

  lemma ChunkContinues(e: Expect, group: seq<Txn>, lo: nat, i: nat, hi: nat, j: nat, m: nat, s: bytes)
    requires lo <= i < hi <= |group| && s == ChunkOf(group[i]) && |s| == 66 * (|s| / 66)
    requires RunOk(e, group, lo, i, j) && RunOk(e, group, lo, hi, m)
    ensures ChunkOk(e, s, j)
  {
    hide IndicesOk, TxnOk, ChunkOf;
    ChunksPrefix(group, lo, i + 1, hi);
    assert Chunks(group, lo, i + 1) == Chunks(group, lo, i) + s;
    hide Chunks;
    NextPiece(e.vaa, j, m, s);
    FewerIndices(e.vaa, e.count, j + |s| / 66, m);
  }

  lemma WalkBegins(e: Expect, group: seq<Txn>, lo: nat)
    requires lo <= |group|
    ensures RunOk(e, group, lo, lo, 0) <==> 6 <= |e.vaa|
  {
  }

  /** A finished walk has accounted for one number of signatures only. */
  lemma WalkEnds(e: Expect, group: seq<Txn>, lo: nat, hi: nat, j: nat, m: nat)
    requires lo <= hi <= |group| && RunOk(e, group, lo, hi, j)
    ensures RunOk(e, group, lo, hi, m) <==> j == m
  {
    hide TxnOk, IndicesOk, Chunks;
    if RunOk(e, group, lo, hi, m) {
      assert |e.vaa[6..6 + 66 * m]| == 66 * m && |e.vaa[6..6 + 66 * j]| == 66 * j;
    }
  }

  // ---- The loops ----

  /** The backward walk, as written: it stops at the first other call, at a call without arguments, or at 0. */
  method WalkBack(group: seq<Txn>, gi: nat) returns (i: nat)
    requires 0 < gi < |group| && |group[gi - 1].args| > 0
    ensures i == WalkStart(group, gi)
  {
    i := gi - 1;
    var a := group[i].args[0];
    while i > 0 && (a == VERIFY_SIGS || a == NOP)
      invariant 0 <= i < gi
      invariant a == (if |group[i].args| > 0 then group[i].args[0] else [])
      invariant WalkStart(group, gi) == WalkStart(group, i + 1)
    {
      i := i - 1;
      if |group[i].args| > 0 {
        a := group[i].args[0];
      } else {
        a := [];
        break;
      }
    }
    if a != VERIFY_SIGS && a != NOP {
      i := i + 1;
    }
  }

  /** Bit `g` of `hits` is set exactly when one of the first `j` signatures names guardian `g`. */
  ghost predicate HitsAre(hits: seq<bool>, vaa: bytes, j: nat)
  {
    && |hits| == 32
    && (forall i :: 0 <= i < j ==> IndexAt(vaa, i) < 32 && hits[IndexAt(vaa, i)])
    && (forall g :: 0 <= g < 32 && hits[g] ==> exists i :: 0 <= i < j && IndexAt(vaa, i) == g)
  }

  /** One signature of the inner loop: its guardian is new and has a key. */
  method TakeSignature(e: Expect, j: nat, hits: seq<bool>) returns (r: Option<(seq<bool>, bytes)>)
    requires |e.keys| == 20 * e.count && 6 + 66 * j < |e.vaa|
    requires HitsAre(hits, e.vaa, j) && IndicesOk(e.vaa, e.count, j)
    ensures r.Some? <==> IndicesOk(e.vaa, e.count, j + 1)
    ensures r.Some? ==> HitsAre(r.value.0, e.vaa, j + 1) && r.value.1 == KeyAt(e.keys, e.vaa[6 + 66 * j])
  {
    var guardian := e.vaa[6 + 66 * j];
    assert IndexAt(e.vaa, j) == guardian;
    if guardian >= 32 || hits[guardian] || 20 * (guardian as int) + 20 > |e.keys| {
      return None;
    }
    r := Some((hits[guardian := true], e.keys[20 * (guardian as int)..20 * (guardian as int) + 20]));
  }

  /** The records that a chunk touches; a cut-off record counts. */
  function Touched(s: bytes): nat
  {
    (|s| + 65) / 66
  }

  /** The keys of the guardians of signatures `j` to `n`, in order. */
  function CollectedKeys(e: Expect, j: nat, n: nat): bytes
    requires j <= n
  {
    if j == n then [] else CollectedKeys(e, j, n - 1) + KeyAt(e.keys, IndexAt(e.vaa, n - 1))
  }

  /** For whole records these are the keys of the guardians named in the chunk. */
  lemma {:induction false} CollectedForChunk(e: Expect, s: bytes, j: nat, n: nat)
    requires |s| == 66 * n && 6 + 66 * j + |s| <= |e.vaa| && e.vaa[6 + 66 * j..6 + 66 * j + |s|] == s
    ensures CollectedKeys(e, j, j + n) == KeysFor(e.keys, s)
    decreases n
  {
    hide KeyAt;
    if n > 0 {
      var init, start := s[..|s| - 66], 6 + 66 * j;
      SubSlice(e.vaa, start, start + |s|, 0, |init|);
      assert s[|init|] == e.vaa[start + |init|] == IndexAt(e.vaa, j + n - 1);
      CollectedForChunk(e, init, j, n - 1);
    }
  }

  /** The chunk continues the VAA's signatures, and every record it touches names a new guardian of the set. */
  ghost predicate Taken(e: Expect, s: bytes, j: nat)
  {
    && 6 + 66 * j + |s| <= |e.vaa| && e.vaa[6 + 66 * j..6 + 66 * j + |s|] == s
    && IndicesOk(e.vaa, e.count, j + Touched(s))
  }

  lemma WholeChunk(e: Expect, s: bytes, j: nat)
    requires |s| % 66 == 0
    ensures Touched(s) == |s| / 66 && (Taken(e, s, j) <==> ChunkOk(e, s, j))
    ensures Taken(e, s, j) ==> CollectedKeys(e, j, j + Touched(s)) == KeysFor(e.keys, s)
  {
    hide IndicesOk, CollectedKeys, KeysFor;
    if Taken(e, s, j) {
      CollectedForChunk(e, s, j, |s| / 66);
    }
  }

  /** Any verifySigs chunk: it must continue the VAA's signatures; collects the keys it should have used. */
  method TakeChunk(e: Expect, s: bytes, j: nat, hits: seq<bool>) returns (r: Option<(nat, seq<bool>, bytes)>)
    requires |e.keys| == 20 * e.count && 6 + 66 * j <= |e.vaa|
    requires HitsAre(hits, e.vaa, j) && IndicesOk(e.vaa, e.count, j)
    ensures r.Some? <==> Taken(e, s, j)
    ensures r.Some? ==> r.value.0 == j + Touched(s) && HitsAre(r.value.1, e.vaa, r.value.0)
                        && r.value.2 == CollectedKeys(e, j, r.value.0)
  {
    hide IndicesOk, HitsAre, KeyAt;
    var off := 6 + 66 * j;
    if off + |s| > |e.vaa| || e.vaa[off..off + |s|] != s {
      return None;
    }
    ghost var end := j + Touched(s);
    var eoff := off + |s|;
    assert eoff <= 6 + 66 * end < eoff + 66;
    r := TakeRecords(e, j, eoff, end, hits);
  }

  /** The inner loop over the records up to `eoff`. */
  method TakeRecords(e: Expect, j: nat, eoff: nat, ghost end: nat, hits: seq<bool>)
    returns (r: Option<(nat, seq<bool>, bytes)>)
    requires |e.keys| == 20 * e.count && j <= end && eoff <= 6 + 66 * end < eoff + 66 && eoff <= |e.vaa|
    requires HitsAre(hits, e.vaa, j) && IndicesOk(e.vaa, e.count, j)
    ensures r.Some? <==> IndicesOk(e.vaa, e.count, end)
    ensures r.Some? ==> r.value.0 == end && HitsAre(r.value.1, e.vaa, end) && r.value.2 == CollectedKeys(e, j, end)
  {
    hide IndicesOk, HitsAre, KeyAt;
    var off, n, h, keys := 6 + 66 * j, j, hits, [];
    while off < eoff
      invariant off == 6 + 66 * n && j <= n <= end
      invariant HitsAre(h, e.vaa, n) && IndicesOk(e.vaa, e.count, n)
      invariant keys == CollectedKeys(e, j, n)
    {
      var next := TakeSignature(e, n, h);
      if next == None {
        if IndicesOk(e.vaa, e.count, end) {
          FewerIndices(e.vaa, e.count, n + 1, end);
        }
        return None;
      }
      h, keys := next.value.0, keys + next.value.1;
      off, n := off + 66, n + 1;
    }
    r := Some((n, h, keys));
  }

  /** A chunk that the stateless program passed is made of whole records. */
  lemma ProgramWhole(c: Crypto, t: Txn)
    requires KeccakWidth(c) && ProgramOk(c, t)
    ensures |t.args| >= 4 && |t.args[1]| % 66 == 0
  {
  }

  /** One transaction of the forward walk. */
  method TakeTxn(c: Crypto, e: Expect, t: Txn, j: nat, hits: seq<bool>) returns (r: Option<(nat, seq<bool>)>)
    requires KeccakWidth(c) && (t.sender == e.programHash ==> ProgramOk(c, t))
    requires |e.keys| == 20 * e.count && 6 + 66 * j <= |e.vaa| && Skippable(t)
    requires HitsAre(hits, e.vaa, j) && IndicesOk(e.vaa, e.count, j)
    ensures r.Some? <==> StepOk(e, t, j)
    ensures r.Some? ==> r.value.0 == j + |ChunkOf(t)| / 66 && HitsAre(r.value.1, e.vaa, r.value.0)
  {
    hide IndicesOk, HitsAre, KeysFor, CollectedKeys, ChunkOk, Taken, ProgramOk, KeccakWidth, Envelope;
    if !Envelope(e, t) { return None; }
    if t.args[0] == VERIFY_SIGS {
      if |t.args| < 2 || |t.args[1]| == 0 { return None; }
      if t.sender == e.programHash {
        ProgramWhole(c, t);
        WholeChunk(e, t.args[1], j);
      }
      var chunk := TakeChunk(e, t.args[1], j, hits);
      if chunk == None { return None; }
      if |t.args| < 4 || t.args[2] != chunk.value.2 || t.sender != e.programHash || t.args[3] != e.digest {
        return None;
      }
      return Some((chunk.value.0, chunk.value.1));
    }
    r := Some((j, hits));
  }

  /** Loads the guardian set named by the VAA and makes the checks that need no other transaction. */
  method LoadSet(s: AppStorage, ghost w: View, c: Crypto, app: App, programHash: bytes, now: nat,
                 t: Txn) returns (r: Option<Expect>)
    requires s.Valid() && w == View(c, app, programHash, now, s.local) && ValidView(w)
    ensures r.Some? <==> SetOk(w, t)
    ensures r.Some? ==> r.value == Expected(w, t)
  {
    hide SigAddress, ToInt, Flat, WellFormed, DoubleKeccak, KeccakWidth, ValidApp;
    if |t.args| < 2 || |t.accounts| < 3 || |t.args[1]| < 6 { return None; }
    var vaa, guardians := t.args[1], t.accounts[2];
    if guardians != SigAddress(c, app, ToInt(vaa[1..5]), GUARDIAN) { return None; }
    if guardians !in s.local || s.local[guardians].meta != Some(GUARDIAN) { return None; }
    ghost var f := SetBlob(w, t);
    var total := s.GetByte(guardians, 0);
    if total == None || total.value == 0 { return None; }
    var n: int := total.value;
    var keys := s.Read(guardians, 1, 1 + 20 * n);
    assert n == f[0] && (keys.Some? <==> 1 + 20 * n < MAX_BYTES);
    if keys == None { return None; }
    var expiry := s.Read(guardians, 1000, 1008);
    assert keys.value == f[1..1 + 20 * n] && expiry.Some? && expiry.value == f[1000..1008];
    var expires := ToInt(expiry.value);
    if expires != 0 && now >= expires { return None; }
    var numSigs: int := vaa[5];
    var off := 6 + numSigs * 66;
    if off > |vaa| { return None; }
    var digest := DoubleKeccak(c, vaa[off..]);
    if !(numSigs <= n && numSigs > n * 2 / 3) { return None; }
    r := Some(Expect(t, vaa, n, keys.value, digest, programHash));
  }

  /** The whole of verifyVAA: it approves exactly the groups that `Accepted` describes. */
  method Run(s: AppStorage, ghost w: View, c: Crypto, app: App, programHash: bytes, now: nat, group: seq<Txn>, gi: nat)
    returns (ok: bool)
    requires s.Valid() && w == View(c, app, programHash, now, s.local) && ValidView(w)
    requires gi < |group| && ProgramSigned(c, programHash, group)
    ensures ok <==> Accepted(w, group, gi)
  {
    var loaded := LoadSet(s, w, c, app, programHash, now, group[gi]);
    if loaded == None { return false; }
    var e := loaded.value;
    if gi == 0 || |group[gi - 1].args| == 0 { return false; }
    var i := WalkBack(group, gi);
    if !Envelope(e, group[gi]) { return false; }
    ok := WalkForward(c, e, group, i, gi);
  }

  /** The forward walk from `lo` to `gi`, and the final check that no signature is left over. */
  method WalkForward(c: Crypto, e: Expect, group: seq<Txn>, lo: nat, gi: nat) returns (ok: bool)
    requires KeccakWidth(c) && lo <= gi < |group| && ProgramSigned(c, e.programHash, group)
    requires |e.keys| == 20 * e.count && |e.vaa| > 5 && lo == WalkStart(group, gi)
    ensures ok <==> RunOk(e, group, lo, gi, NumSigs(e.vaa))
  {
    hide RunOk, KeysFor, IndicesOk, HitsAre, ProgramOk, StepOk, WalkStart, KeccakWidth, ChunkOf, Skippable;
    var j, hits := 0, seq(32, _ => false);
    NoHits(e.vaa, hits);
    WalkBegins(e, group, lo);
    for i := lo to gi
      invariant j >= 0 && RunOk(e, group, lo, i, j) && HitsAre(hits, e.vaa, j)
    {
      InRun(group, gi, i);
      WalkRefused(c, e, group, lo, i, gi, j, NumSigs(e.vaa));
      var next := TakeTxn(c, e, group[i], j, hits);
      if next == None { return false; }
      WalkNext(e, group, lo, i, j);
      j, hits := next.value.0, next.value.1;
    }
    WalkEnds(e, group, lo, gi, j, NumSigs(e.vaa));
    var off := 6 + 66 * j;
    ok := off == 6 + NumSigs(e.vaa) * 66;
  }

  lemma NoHits(vaa: bytes, hits: seq<bool>)
    requires |hits| == 32 && forall g :: 0 <= g < 32 ==> !hits[g]
    ensures HitsAre(hits, vaa, 0)
  {
  }

  lemma {:induction false} InRun(group: seq<Txn>, gi: nat, i: nat)
    requires gi <= |group| && WalkStart(group, gi) <= i < gi
    ensures Skippable(group[i])
    decreases gi
  {
    if i < gi - 1 {
      InRun(group, gi - 1, i);
    }
  }

  // ---- Soundness ----

  /** What an approval is worth: distinct guardians of the stored set, a quorum of them, all signing this VAA. */
  ghost predicate QuorumSigned(c: Crypto, vaa: bytes, f: bytes)
    requires KeccakWidth(c) && |f| == MAX_BYTES && |vaa| > 5
  {
    var n: int, m := f[0], NumSigs(vaa);
    && 1 + 20 * n < MAX_BYTES && 6 + 66 * m <= |vaa|
    && m <= n && m >= n * 2 / 3 + 1
    && IndicesOk(vaa, n, m)
    && forall j :: 0 <= j < m ==>
         Recovers(c, RecordAt(vaa, j), DoubleKeccak(c, vaa[6 + 66 * m..]), KeyAt(f[1..1 + 20 * n], IndexAt(vaa, j)))
  }

  function RecordAt(vaa: bytes, j: nat): (r: bytes)
    ensures |r| == 66
  {
    if 6 + 66 * j + 66 <= |vaa| then vaa[6 + 66 * j..6 + 66 * j + 66] else Zeros(66)
  }

  /** Guardian index of record `k` of a chunk. */
  function IndexIn(chunk: bytes, k: nat): nat
  {
    if 66 * k < |chunk| then chunk[66 * k] else 0
  }

  /** Every guardian named by the `n` records of the chunk has a key. */
  ghost predicate Named(count: nat, chunk: bytes, n: nat)
  {
    |chunk| == 66 * n && forall i :: 0 <= i < n ==> IndexIn(chunk, i) < count
  }

  /** The key string grows by the key of the last record. */
  lemma KeysForLast(keys: bytes, count: nat, chunk: bytes, n: nat)
    requires |keys| == 20 * count && n > 0 && Named(count, chunk, n)
    ensures var init, key := chunk[..|chunk| - 66], KeyAt(keys, IndexIn(chunk, n - 1));
      Named(count, init, n - 1) && |key| == 20 && KeysFor(keys, chunk) == KeysFor(keys, init) + key
    ensures forall i :: 0 <= i < n - 1 ==> IndexIn(chunk[..|chunk| - 66], i) == IndexIn(chunk, i)
  {
    var init := chunk[..|chunk| - 66];
    forall i | 0 <= i < n - 1
      ensures IndexIn(init, i) == IndexIn(chunk, i) < count
    {
    }
    assert IndexIn(chunk, n - 1) == chunk[|chunk| - 66];
  }

  lemma {:induction false} KeysForLength(keys: bytes, count: nat, chunk: bytes, n: nat)
    requires |keys| == 20 * count && Named(count, chunk, n)
    ensures |KeysFor(keys, chunk)| == 20 * n
    decreases n
  {
    if n > 0 {
      KeysForLast(keys, count, chunk, n);
      KeysForLength(keys, count, chunk[..|chunk| - 66], n - 1);
    }
  }

  /** Key number `k` collected for a chunk belongs to the guardian of record `k`. */
  lemma {:induction false} KeysForAt(keys: bytes, count: nat, chunk: bytes, n: nat, k: nat)
    requires |keys| == 20 * count && k < n && Named(count, chunk, n)
    ensures |KeysFor(keys, chunk)| == 20 * n
    ensures KeysFor(keys, chunk)[20 * k..20 * k + 20] == KeyAt(keys, IndexIn(chunk, k))
    decreases n
  {
    hide KeysFor, KeyAt, IndexIn;
    var init, key := chunk[..|chunk| - 66], KeyAt(keys, IndexIn(chunk, n - 1));
    KeysForLast(keys, count, chunk, n);
    KeysForLength(keys, count, init, n - 1);
    if k < n - 1 {
      KeysForAt(keys, count, init, n - 1, k);
      assert (KeysFor(keys, init) + key)[20 * k..20 * k + 20] == KeysFor(keys, init)[20 * k..20 * k + 20];
    } else {
      assert (KeysFor(keys, init) + key)[20 * k..20 * k + 20] == key;
    }
  }

  /** The chunk of a good transaction passed the stateless program with the keys of the guardians it names. */
  lemma ChunkSigned(c: Crypto, e: Expect, group: seq<Txn>, i: nat)
    requires KeccakWidth(c) && ProgramSigned(c, e.programHash, group) && i < |group| && TxnOk(e, group[i])
    ensures var s := ChunkOf(group[i]);
      |s| == 66 * (|s| / 66) && (s != [] ==> SigCheckOk(c, s, e.digest, KeysFor(e.keys, s)))
  {
    hide KeysFor;
    if ChunkOf(group[i]) != [] {
      assert ProgramOk(c, group[i]);
    }
  }

  /** Removing the last transaction of a run leaves a run with fewer signatures. */
  lemma WalkLast(c: Crypto, e: Expect, group: seq<Txn>, lo: nat, i: nat, j: nat) returns (start: nat)
    requires KeccakWidth(c) && ProgramSigned(c, e.programHash, group)
    requires lo < i <= |group| && RunOk(e, group, lo, i, j)
    ensures start <= j && RunOk(e, group, lo, i - 1, start)
    ensures var s := ChunkOf(group[i - 1]);
      && |s| == 66 * (j - start) && ChunkOk(e, s, start)
      && (s != [] ==> SigCheckOk(c, s, e.digest, KeysFor(e.keys, s)))
  {
    hide KeysFor, SigCheckOk, IndicesOk, TxnOk, ChunkOf;
    var s := ChunkOf(group[i - 1]);
    ChunkSigned(c, e, group, i - 1);
    start := CutLast(e.vaa, Chunks(group, lo, i - 1), s, j);
    FewerIndices(e.vaa, e.count, start, j);
  }

  lemma CutLast(vaa: bytes, before: bytes, s: bytes, j: nat) returns (start: nat)
    requires 6 + 66 * j <= |vaa| && before + s == vaa[6..6 + 66 * j] && |s| == 66 * (|s| / 66)
    ensures start <= j && |s| == 66 * (j - start)
    ensures before == vaa[6..6 + 66 * start] && s == vaa[6 + 66 * start..6 + 66 * j]
  {
    assert |before + s| == 66 * j;
    start := j - |s| / 66;
    assert before == (before + s)[..66 * start] && s == (before + s)[66 * start..];
  }

  lemma FewerIndices(vaa: bytes, count: nat, m: nat, n: nat)
    requires m <= n && IndicesOk(vaa, count, n)
    ensures IndicesOk(vaa, count, m)
  {
  }

  /** Record `k` of the chunk that starts at signature `j` is the VAA's record `j + k`. */
  lemma ChunkRecord(vaa: bytes, s: bytes, j: nat, k: nat)
    requires 66 * k + 66 <= |s| && 6 + 66 * j + |s| <= |vaa| && s == vaa[6 + 66 * j..6 + 66 * j + |s|]
    ensures s[66 * k..66 * k + 66] == RecordAt(vaa, j + k) && IndexIn(s, k) == IndexAt(vaa, j + k)
  {
    SubSlice(vaa, 6 + 66 * j, 6 + 66 * j + |s|, 66 * k, 66 * k + 66);
  }

  /** Signature `k` was recovered to the key of the guardian it names, over the expected digest. */
  ghost predicate Vouched(c: Crypto, e: Expect, k: nat)
    requires KeccakWidth(c)
  {
    Recovers(c, RecordAt(e.vaa, k), e.digest, KeyAt(e.keys, IndexAt(e.vaa, k)))
  }

  lemma ChunkVouched(c: Crypto, e: Expect, s: bytes, j: nat, k: nat)
    requires KeccakWidth(c) && |e.keys| == 20 * e.count && ChunkOk(e, s, j)
    requires SigCheckOk(c, s, e.digest, KeysFor(e.keys, s)) && k < |s| / 66
    ensures Vouched(c, e, j + k)
  {
    forall i | 0 <= i < |s| / 66
      ensures IndexIn(s, i) < e.count
    {
      ChunkRecord(e.vaa, s, j, i);
      assert IndexAt(e.vaa, j + i) < e.count;
    }
    KeysForAt(e.keys, e.count, s, |s| / 66, k);
    ChunkRecord(e.vaa, s, j, k);
    assert RecordOk(c, s, e.digest, KeysFor(e.keys, s), k);
  }

  /** The signatures that the last transaction of a run accounts for. */
  lemma LastVouched(c: Crypto, e: Expect, group: seq<Txn>, lo: nat, i: nat, j: nat) returns (start: nat)
    requires KeccakWidth(c) && ProgramSigned(c, e.programHash, group) && |e.keys| == 20 * e.count
    requires lo < i <= |group| && RunOk(e, group, lo, i, j)
    ensures start <= j && RunOk(e, group, lo, i - 1, start)
    ensures forall k :: start <= k < j ==> Vouched(c, e, k)
  {
    hide RunOk, ChunkOk, KeysFor, SigCheckOk;
    start := WalkLast(c, e, group, lo, i, j);
    forall k | start <= k < j
      ensures Vouched(c, e, k)
    {
      assert k - start < |ChunkOf(group[i - 1])| / 66;
      ChunkVouched(c, e, ChunkOf(group[i - 1]), start, k - start);
    }
  }

  lemma {:induction false} WalkVouched(c: Crypto, e: Expect, group: seq<Txn>, lo: nat, i: nat, j: nat, k: nat)
    requires KeccakWidth(c) && ProgramSigned(c, e.programHash, group) && |e.keys| == 20 * e.count
    requires lo <= i <= |group| && RunOk(e, group, lo, i, j) && k < j
    ensures Vouched(c, e, k)
    decreases i
  {
    WalkBegins(e, group, lo);
    WalkEnds(e, group, lo, i, j, 0);
    hide RunOk, Vouched;
    var start := LastVouched(c, e, group, lo, i, j);
    if k < start {
      WalkVouched(c, e, group, lo, i - 1, start, k);
    }
  }

  /**
   * Guardian signature `j` of the VAA, in bytes: the public key recovered from V, R and S over the twice hashed body
   * has an address equal to the key stored for the guardian that the signature names.
   */
  ghost predicate GuardianSigned(c: Crypto, vaa: bytes, f: bytes, j: nat)
    requires |f| == MAX_BYTES && |vaa| > 5
  {
    var m: int, n: int, at := vaa[5], f[0], 6 + 66 * j;
    && j < m && 6 + 66 * m <= |vaa| && 1 + 20 * n < MAX_BYTES
    && var g: int := vaa[at];
    && g < n && g < 32
    && var digest := c.keccak256(c.keccak256(vaa[6 + 66 * m..]));
    && var pk := c.recover(digest, vaa[at + 65], vaa[at + 1..at + 33], vaa[at + 33..at + 65]);
    && pk.Some? && |c.keccak256(pk.value)| == 32 && c.keccak256(pk.value)[12..32] == f[1 + 20 * g..21 + 20 * g]
  }

  lemma SignedSpelledOut(c: Crypto, vaa: bytes, f: bytes, j: nat)
    requires KeccakWidth(c) && |f| == MAX_BYTES && |vaa| > 5 && QuorumSigned(c, vaa, f) && j < NumSigs(vaa)
    ensures GuardianSigned(c, vaa, f, j)
  {
    var n: int, m, at := f[0], NumSigs(vaa), 6 + 66 * j;
    var g := IndexAt(vaa, j);
    assert Recovers(c, RecordAt(vaa, j), DoubleKeccak(c, vaa[6 + 66 * m..]), KeyAt(f[1..1 + 20 * n], g));
    SubSlice(vaa, at, at + 66, 1, 33);
    SubSlice(vaa, at, at + 66, 33, 65);
    assert g < n;
    SubSlice(f, 1, 1 + 20 * n, 20 * g, 20 * g + 20);
  }

  /** A transaction of the run is a call of the same application, without rekeying, for the same storage accounts. */
  predicate SameCall(me: Txn, t: Txn)
  {
    && t.kind == ApplicationCall && t.rekeyTo == ZERO_ADDRESS && t.applicationId == me.applicationId
    && |t.accounts| > 2 && |me.accounts| > 2 && t.accounts[1] == me.accounts[1] && t.accounts[2] == me.accounts[2]
  }

  /** A nop, or a verifySigs call of the stored program over the twice hashed body of the VAA. */
  ghost predicate OfThisVaa(w: View, vaa: bytes, t: Txn)
  {
    && |vaa| > 5 && 6 + 66 * (vaa[5] as int) <= |vaa| && |t.args| > 0
    && (t.args[0] == NOP || t.args[0] == VERIFY_SIGS)
    && (t.args[0] == VERIFY_SIGS ==>
          && |t.args| > 3 && t.sender == w.programHash
          && t.args[3] == w.c.keccak256(w.c.keccak256(vaa[6 + 66 * (vaa[5] as int)..])))
  }

  /** The run before `gi`: nothing but verifySigs and nop calls, as far back as these go. */
  lemma {:induction false} WalkStartIs(group: seq<Txn>, gi: nat)
    requires gi <= |group|
    ensures var lo := WalkStart(group, gi);
      && (forall i :: lo <= i < gi ==>
            |group[i].args| > 0 && (group[i].args[0] == NOP || group[i].args[0] == VERIFY_SIGS))
      && (lo == 0 || group[lo - 1].args == [] || (group[lo - 1].args[0] != NOP && group[lo - 1].args[0] != VERIFY_SIGS))
  {
    if gi > 0 && Skippable(group[gi - 1]) {
      WalkStartIs(group, gi - 1);
    }
  }

  /**
   * Soundness of verifyVAA. Whatever the group looks like, approval means that the VAA's signature bytes are the
   * preceding chunks in order, that these were checked by the program for this VAA, and that a quorum of distinct
   * stored guardians signed the twice hashed body.
   */
  lemma Soundness(w: View, group: seq<Txn>, gi: nat)
    requires ValidView(w) && gi < |group| && ProgramSigned(w.c, w.programHash, group)
    requires Accepted(w, group, gi)
    ensures var vaa, f := group[gi].args[1], SetBlob(w, group[gi]); var m: int, n: int := vaa[5], f[0];
      && QuorumSigned(w.c, vaa, f)
      && m <= n && 3 * m > 2 * n && (forall j :: 0 <= j < m ==> GuardianSigned(w.c, vaa, f, j))
      && (forall i, j :: 0 <= i < j < m ==> vaa[6 + 66 * i] != vaa[6 + 66 * j])
    ensures var vaa, lo := group[gi].args[1], WalkStart(group, gi);
      && vaa[6..6 + 66 * (vaa[5] as int)] == Chunks(group, lo, gi)
      && (forall i :: lo <= i <= gi ==> SameCall(group[gi], group[i]))
      && (forall i :: lo <= i < gi ==> OfThisVaa(w, vaa, group[i]))
  {
    hide SameCall, OfThisVaa, GuardianSigned, Recovers, SigAddress, ToInt, TxnOk, DoubleKeccak;
    var e := Expected(w, group[gi]);
    var lo := WalkStart(group, gi);
    forall j | 0 <= j < NumSigs(e.vaa)
      ensures Recovers(w.c, RecordAt(e.vaa, j), e.digest, KeyAt(e.keys, IndexAt(e.vaa, j)))
    {
      WalkVouched(w.c, e, group, lo, gi, NumSigs(e.vaa), j);
    }
    SoundIndices(w, group[gi], e);
    SoundRun(w, group, gi, e);
  }

  lemma SoundIndices(w: View, t: Txn, e: Expect)
    requires ValidView(w) && SetOk(w, t) && e == Expected(w, t) && QuorumSigned(w.c, e.vaa, SetBlob(w, t))
    ensures var vaa, f := t.args[1], SetBlob(w, t); var m: int, n: int := vaa[5], f[0];
      && m <= n && 3 * m > 2 * n && (forall j :: 0 <= j < m ==> GuardianSigned(w.c, vaa, f, j))
      && (forall i, j :: 0 <= i < j < m ==> vaa[6 + 66 * i] != vaa[6 + 66 * j])
  {
    hide GuardianSigned, Recovers, SigAddress;
    var m := NumSigs(e.vaa);
    forall j | 0 <= j < m
      ensures GuardianSigned(w.c, e.vaa, SetBlob(w, t), j)
    {
      SignedSpelledOut(w.c, e.vaa, SetBlob(w, t), j);
    }
    forall i, j | 0 <= i < j < m
      ensures e.vaa[6 + 66 * i] != e.vaa[6 + 66 * j]
    {
      assert IndexAt(e.vaa, i) != IndexAt(e.vaa, j);
    }
  }

  lemma SoundRun(w: View, group: seq<Txn>, gi: nat, e: Expect)
    requires ValidView(w) && gi < |group| && Accepted(w, group, gi) && e == Expected(w, group[gi])
    ensures var lo := WalkStart(group, gi);
      && (forall i :: lo <= i <= gi ==> SameCall(group[gi], group[i]))
      && (forall i :: lo <= i < gi ==> OfThisVaa(w, e.vaa, group[i]))
  {
    hide KeysFor, IndicesOk, SigAddress, Chunks, TxnOk, SameCall, OfThisVaa, DoubleKeccak, WalkStart, ToInt;
    var lo := WalkStart(group, gi);
    CalledAlike(w, e, group[gi]);
    forall i | lo <= i < gi
      ensures SameCall(group[gi], group[i]) && OfThisVaa(w, e.vaa, group[i])
    {
      InRun(group, gi, i);
      assert TxnOk(e, group[i]);
      CalledAlike(w, e, group[i]);
    }
  }

  /** What the checks on one transaction of the run amount to. */
  lemma CalledAlike(w: View, e: Expect, t: Txn)
    requires |e.vaa| > 5 && 6 + 66 * NumSigs(e.vaa) <= |e.vaa| && e.programHash == w.programHash
    requires e.digest == DoubleKeccak(w.c, e.vaa[6 + 66 * NumSigs(e.vaa)..])
    ensures Envelope(e, t) ==> SameCall(e.me, t)
    ensures TxnOk(e, t) ==> SameCall(e.me, t)
    ensures TxnOk(e, t) && Skippable(t) ==> OfThisVaa(w, e.vaa, t)
  {
  }
}
