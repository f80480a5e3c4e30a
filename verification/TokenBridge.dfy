/** The token bridge: attested assets, replay protection and the two halves of a transfer. */
module TokenBridge {
  import opened Bytes
  import opened Cryptography
  import opened Guardians
  import opened LocalBlob
  import opened Replay
  import opened TmplSig
  import opened Transactions
  import opened Transfers
  import opened Vaa

  // ---- Wrapped assets ----

  /** A foreign token: its chain and its address there. */
  type Token = (nat, bytes)

  ghost predicate IsToken(k: Token)
  {
    k.0 < U16 && |k.1| == 32
  }

  ghost function AssetBlob(c: Crypto, app: App, k: Token): bytes
    requires ValidApp(app)
  {
    SigAddress(c, app, k.0, k.1)
  }

  /** The blob holds asset `id` and the identity of the token, at offsets 0, 60 and 92. */
  ghost predicate Records(f: bytes, k: Token, id: nat)
    requires |f| == MAX_BYTES
  {
    f[0..8] == FromInt(id, 8) && f[60..92] == k.1 && f[92..94] == FromInt(k.0, 2)
  }

  ghost predicate TokenOk(c: Crypto, app: App, local: map<bytes, Local>, assets: map<Token, nat>, k: Token)
    requires ValidApp(app) && AllWellFormed(local)
  {
    var a := AssetBlob(c, app, k);
    && (k in assets ==> 0 < assets[k] < U64 && a in local && Records(Flat(local[a]), k, assets[k]))
    && (k !in assets && a in local ==> Flat(local[a])[0..8] == Zeros(8))
  }

  /** Every token has at most one asset, recorded in its own blob together with the token's identity. */
  ghost predicate AssetsOk(c: Crypto, app: App, local: map<bytes, Local>, assets: map<Token, nat>)
    requires ValidApp(app) && AllWellFormed(local)
  {
    forall k: Token :: IsToken(k) ==> TokenOk(c, app, local, assets, k)
  }

  /** Writes to slots of other lengths, and opting in with zeros, keep the assets. */
  lemma AssetsKept(c: Crypto, app: App, local: map<bytes, Local>, a: bytes, l: Local, assets: map<Token, nat>)
    requires ValidApp(app) && AllWellFormed(local) && WellFormed(l) && AssetsOk(c, app, local, assets)
    requires || (forall k: Token :: IsToken(k) ==> AssetBlob(c, app, k) != a)
             || (a !in local && Flat(l) == Zeros(MAX_BYTES))
    ensures AssetsOk(c, app, local[a := l], assets)
  {
    hide SigAddress;
    forall k: Token | IsToken(k)
      ensures TokenOk(c, app, local[a := l], assets, k)
    {
      assert TokenOk(c, app, local, assets, k);
      assert Zeros(MAX_BYTES)[0..8] == Zeros(8);
    }
  }

  lemma BitmapIsNoAsset(c: Crypto, app: App, m: Message)
    requires ValidApp(app) && CollisionFree(c) && Messages(m)
    ensures forall k: Token :: IsToken(k) ==> AssetBlob(c, app, k) != BitmapOf(c, app, m)
  {
    forall k: Token | IsToken(k)
      ensures AssetBlob(c, app, k) != BitmapOf(c, app, m)
    {
      SlotsDoNotAlias(c, app, k.0, k.1, m.1 / MAX_BITS, m.0);
    }
  }

  /** Recording one token leaves the others alone. */
  lemma AssetRecorded(c: Crypto, app: App, local: map<bytes, Local>, k: Token, l: Local, assets: map<Token, nat>,
                      id: nat)
    requires ValidApp(app) && CollisionFree(c) && AllWellFormed(local) && WellFormed(l)
    requires AssetsOk(c, app, local, assets)
    requires IsToken(k) && 0 < id < U64 && Records(Flat(l), k, id)
    ensures AssetsOk(c, app, local[AssetBlob(c, app, k) := l], assets[k := id])
  {
    hide SigAddress, CollisionFree;
    forall j: Token | IsToken(j)
      ensures TokenOk(c, app, local[AssetBlob(c, app, k) := l], assets[k := id], j)
    {
      SlotsDoNotAlias(c, app, j.0, j.1, k.0, k.1);
      assert TokenOk(c, app, local, assets, j);
    }
  }

  /** Recording a token keeps the bitmaps and the other tokens. */
  lemma RecordKeeps(c: Crypto, app: App, local: map<bytes, Local>, k: Token, l: Local, assets: map<Token, nat>, id: nat,
                    consumed: set<Message>)
    requires ValidApp(app) && CollisionFree(c) && AllWellFormed(local) && WellFormed(l)
    requires AssetsOk(c, app, local, assets) && Bitmaps(c, app, local, consumed)
    requires IsToken(k) && 0 < id < U64 && Records(Flat(l), k, id)
    ensures AssetsOk(c, app, local[AssetBlob(c, app, k) := l], assets[k := id])
    ensures Bitmaps(c, app, local[AssetBlob(c, app, k) := l], consumed)
  {
    hide CollisionFree, AssetsOk, Bitmaps, Records;
    AssetRecorded(c, app, local, k, l, assets, id);
    OtherSlot(c, app, k.0, k.1);
    BitmapsKept(c, app, local, AssetBlob(c, app, k), l, consumed);
  }

  lemma ZeroId(id: nat)
    requires id < U64
    ensures FromInt(id, 8) == Zeros(8) <==> id == 0
  {
    ToIntPadded(8, []);
    assert Zeros(8) + [] == Zeros(8);
    Reads(id, 8);
    Fits(Zeros(8), 8);
  }

  // ---- The attestation VAA ----

  /** Chain, address, decimals, symbol and name are all there, and the payload is of type 2. */
  predicate IsAttest(vaa: bytes)
  {
    |vaa| > 5 && ChainOffset(vaa) + 143 <= |vaa| && vaa[ChainOffset(vaa) + 43] == 2
  }

  function TokenOf(vaa: bytes): (k: Token)
    requires IsAttest(vaa)
    ensures IsToken(k)
  {
    var off := ChainOffset(vaa) + 43;
    Fits(vaa[off + 33..off + 35], 2);
    (ToInt(vaa[off + 33..off + 35]), vaa[off + 1..off + 33])
  }

  function BodyOf(vaa: bytes): bytes
    requires |vaa| > 5 && ChainOffset(vaa) - 8 <= |vaa|
  {
    vaa[ChainOffset(vaa) - 8..]
  }

  /** The body stored at offset 8 puts the token's address at 60 and its chain at 92. */
  lemma BodyRecords(f: bytes, g: bytes, vaa: bytes, id: nat)
    requires |f| == MAX_BYTES && IsAttest(vaa) && 8 + |BodyOf(vaa)| < MAX_BYTES
    requires f[0..8] == FromInt(id, 8) && g == Splice(f, 8, BodyOf(vaa))
    ensures Records(g, TokenOf(vaa), id)
  {
    var body, start := BodyOf(vaa), ChainOffset(vaa) - 8;
    SpliceSlice(f, 8, body, 0, 8);
    SpliceSlice(f, 8, body, 60, 92);
    SpliceSlice(f, 8, body, 92, 94);
    SubSlice(vaa, start, |vaa|, 52, 84);
    SubSlice(vaa, start, |vaa|, 84, 86);
    Fits(vaa[start + 84..start + 86], 2);
  }

  /** trim_bytes: everything before the first zero byte. */
  method TrimBytes(s: bytes) returns (r: bytes)
    ensures r <= s && 0 !in r && (r == s || s[|r|] == 0)
  {
    r := s;
    var length, off := |s|, 0;
    while off < length
      invariant 0 <= off
      invariant off <= length ==> r == s && forall i :: 0 <= i < off ==> s[i] != 0
      invariant off > length ==> r <= s && 0 !in r && |r| < |s| && s[|r|] == 0
      decreases length - off
    {
      if r[off] == 0 {
        r := r[..off];
        off := length;
      }
      off := off + 1;
    }
  }

  /** The asset created for an attestation. */
  predicate Describes(vaa: bytes, p: NewAsset)
    requires IsAttest(vaa)
  {
    var off := ChainOffset(vaa) + 43;
    var symbol, name := vaa[off + 36..off + 68], vaa[off + 68..off + 100];
    && p.decimals == (if vaa[off + 35] > 8 then 8 else vaa[off + 35])
    && p.symbol <= symbol && 0 !in p.symbol && |p.symbol| <= 8 && (|p.symbol| == 8 || symbol[|p.symbol|] == 0)
    && p.name <= name && 0 !in p.name && (p.name == name || name[|p.name|] == 0)
  }

  // ---- Group checks ----

  predicate CommonChecks(t: Txn)
  {
    && t.rekeyTo == ZERO_ADDRESS && t.closeRemainderTo == ZERO_ADDRESS
    && t.assetCloseTo == ZERO_ADDRESS && t.completion == NoOp
  }

  /** The same VAA was verified by the core contract in the same group, for the same accounts. */
  predicate VerifiedByCore(coreId: nat, p: Txn, t: Txn)
  {
    && p.kind == ApplicationCall && p.applicationId == coreId && Calls(p, VERIFY_VAA)
    && p.sender == t.sender && p.completion == NoOp
    && |p.args| > 1 && |t.args| > 1 && p.args[1] == t.args[1]
    && |p.accounts| > 2 && |t.accounts| > 2
    && p.accounts[0] == t.accounts[0] && p.accounts[1] == t.accounts[1] && p.accounts[2] == t.accounts[2]
    && CommonChecks(p)
  }

  /** Which call a bridge call relies on: a plain verifyVAA of the same VAA by the same sender, with its accounts. */
  lemma VerifiedByCoreMeans(coreId: nat, p: Txn, t: Txn)
    ensures VerifiedByCore(coreId, p, t) <==>
      && p.kind == ApplicationCall && p.applicationId == coreId && p.completion == NoOp
      && |p.args| > 1 && p.args[0] == VERIFY_VAA && |t.args| > 1 && t.args[1] == p.args[1]
      && t.sender == p.sender && |p.accounts| > 2 && |t.accounts| > 2 && t.accounts[..3] == p.accounts[..3]
      && p.rekeyTo == p.closeRemainderTo == p.assetCloseTo == ZERO_ADDRESS
  {
    if |p.accounts| > 2 && |t.accounts| > 2 {
      assert p.accounts[..3] == [p.accounts[0], p.accounts[1], p.accounts[2]];
      assert t.accounts[..3] == [t.accounts[0], t.accounts[1], t.accounts[2]];
    }
  }

  predicate IsNop(appId: nat, p: Txn, t: Txn)
  {
    p.kind == ApplicationCall && p.applicationId == appId && Calls(p, NOP) && p.sender == t.sender && CommonChecks(p)
  }

  /** verifyVAA, a payment to the asset's account, two nops, and the attestation last. */
  predicate AttestGroup(coreId: nat, appId: nat, group: seq<Txn>, gi: nat)
    requires gi < |group|
  {
    && 4 <= gi && gi == |group| - 1 && |group[gi].accounts| > 3
    && VerifiedByCore(coreId, group[gi - 4], group[gi])
    && var pay := group[gi - 3];
    && pay.kind == Payment && pay.amount >= 100000 && pay.sender == group[gi].sender
    && pay.receiver == group[gi].accounts[3] && CommonChecks(pay)
    && IsNop(appId, group[gi - 2], group[gi]) && IsNop(appId, group[gi - 1], group[gi])
  }

  /** The five transactions that end with an attestation, all by one sender and none closing or rekeying an account. */
  lemma AttestGroupMeans(coreId: nat, appId: nat, group: seq<Txn>, gi: nat)
    requires gi < |group|
    ensures AttestGroup(coreId, appId, group, gi) <==>
      && 4 <= gi == |group| - 1 && VerifiedByCore(coreId, group[gi - 4], group[gi])
      && |group[gi].accounts| > 3
      && group[gi - 3].kind == Payment && group[gi - 3].amount >= 100000
      && group[gi - 3].receiver == group[gi].accounts[3]
      && (forall i :: gi - 3 <= i < gi ==>
            && group[i].sender == group[gi].sender && group[i].completion == NoOp
            && group[i].rekeyTo == group[i].closeRemainderTo == group[i].assetCloseTo == ZERO_ADDRESS)
      && (forall i :: gi - 2 <= i < gi ==>
            && group[i].kind == ApplicationCall && group[i].applicationId == appId
            && |group[i].args| > 0 && group[i].args[0] == NOP)
  {
    hide VerifiedByCore;
  }

  /** What an attestation says, whatever VAA carries it. */
  lemma AttestParses(v: VAA, address: Bytes32, chain: u16, decimals: byte, symbol: Bytes32, name: Bytes32, rest: bytes)
    requires |v.signatures| <= 255
    requires v.payload == [2] + address + FromInt(chain, 2) + [decimals] + symbol + name + rest
    ensures IsAttest(Encode(v)) && TokenOf(Encode(v)) == (chain as nat, address)
    ensures forall p :: Describes(Encode(v), p) <==>
      && p.decimals == (if decimals > 8 then 8 else decimals)
      && p.symbol <= symbol && 0 !in p.symbol && |p.symbol| <= 8 && (|p.symbol| == 8 || symbol[|p.symbol|] == 0)
      && p.name <= name && 0 !in p.name && (p.name == name || name[|p.name|] == 0)
  {
    hide Encode, FromInt, ToInt;
    var d, p := Encode(v), v.payload;
    AttestFields(p, address, FromInt(chain, 2), decimals, symbol, name, rest);
    AttestOnly(v);
    PayloadAt(v, 1, 33);
    PayloadAt(v, 33, 35);
    PayloadAt(v, 35, 36);
    PayloadAt(v, 36, 68);
    PayloadAt(v, 68, 100);
    var off := ChainOffset(d) + 43;
    assert d[off + 35] == d[off + 35..off + 36][0];
    Reads(chain, 2);
  }

  lemma AttestFields(p: bytes, address: Bytes32, chain: bytes, decimals: byte, symbol: Bytes32, name: Bytes32,
                     rest: bytes)
    requires |chain| == 2 && p == [2] + address + chain + [decimals] + symbol + name + rest
    ensures |p| >= 100 && p[0] == 2 && p[1..33] == address && p[33..35] == chain && p[35..36] == [decimals]
    ensures p[36..68] == symbol && p[68..100] == name
  {
  }

  /** Only payloads of type 2 with all fields are attestations. */
  lemma AttestOnly(v: VAA)
    requires |v.signatures| <= 255
    ensures IsAttest(Encode(v)) <==> |v.payload| >= 100 && v.payload[0] == 2
  {
    hide Encode;
    EmitterAt(v);
    var d := Encode(v);
    if v.payload != [] {
      PayloadAt(v, 0, 1);
      assert d[ChainOffset(d) + 43] == d[ChainOffset(d) + 43..ChainOffset(d) + 44][0];
    }
  }

  /** "TokenBridge", left padded to 32 bytes. */
  const BRIDGE_MODULE: bytes := Zeros(21) + [0x54, 0x6f, 0x6b, 0x65, 0x6e, 0x42, 0x72, 0x69, 0x64, 0x67, 0x65]

  datatype BridgeAction = Register(chain: bytes, emitter: bytes) | ApproveUpgrade(hash: bytes)

  /** A governance VAA for the bridge module, with an action byte and a target chain. */
  predicate IsBridgeGovernance(vaa: bytes)
  {
    && HasMessage(vaa)
    && var off := ChainOffset(vaa);
    && off + 78 <= |vaa|
    && vaa[off..off + 2] == [0, 1] && vaa[off + 2..off + 34] == GOVERNANCE_EMITTER
    && vaa[off + 43..off + 75] == BRIDGE_MODULE
  }

  /** The action, read at fixed offsets: registrations are for all chains or Algorand, upgrades for Algorand only. */
  function BridgeActionOf(vaa: bytes): Option<BridgeAction>
  {
    if !IsBridgeGovernance(vaa) then None
    else
      var off := ChainOffset(vaa);
      var target := ToInt(vaa[off + 76..off + 78]);
      if vaa[off + 75] == 1 && (target == 0 || target == 8) && off + 112 <= |vaa|
      then Some(Register(vaa[off + 78..off + 80], vaa[off + 80..off + 112]))
      else if vaa[off + 75] == 2 && vaa[off + 76..off + 78] == ALGORAND_CHAIN && off + 110 <= |vaa|
      then Some(ApproveUpgrade(vaa[off + 78..off + 110]))
      else None
  }

  datatype NewAsset = NewAsset(name: bytes, symbol: bytes, decimals: nat)

  /** What completeTransfer pays: `amount` to the receiver and `fee` to the relayer, from the escrow account. */
  datatype Release = Release(asset: nat, escrow: bytes, receiver: bytes, amount: nat, relayer: bytes, fee: nat)

  /** The calls that change the bridge; sendTransfer only reads it. */
  datatype Op =
    | OptinCall(t: Txn, seed: Txn, seedAmount: nat)
    | AttestCall(group: seq<Txn>, gi: nat, created: nat)
    | GovernanceCall(group: seq<Txn>, gi: nat, currentSet: nat)
    | CompleteCall(group: seq<Txn>, gi: nat, decimals: nat)

  /** Ledger rules: asset ids are positive uint64 values and arguments are shorter than 4096 bytes. */
  ghost predicate Proper(op: Op)
  {
    && (!op.OptinCall? ==> op.gi < |op.group|)
    && (op.AttestCall? ==> 0 < op.created < U64 && (|op.group[op.gi].args| > 1 ==> |op.group[op.gi].args[1]| < 4096))
  }

  /** The message that a call consumes if it is accepted. */
  function OpMessages(op: Op): seq<Message>
  {
    if op.OptinCall? || op.gi >= |op.group| || |op.group[op.gi].args| < 2 || !HasMessage(op.group[op.gi].args[1])
    then []
    else [MessageOf(op.group[op.gi].args[1])]
  }

  /** Where the verifyVAA call is that a call relies on. */
  function Distance(op: Op): nat
  {
    if op.AttestCall? then 4 else 1
  }

  /** The call repeats a verifyVAA call of the same group, and its VAA has a message. */
  predicate Relies(coreId: nat, op: Op)
    requires !op.OptinCall?
  {
    && Distance(op) <= op.gi < |op.group| && VerifiedByCore(coreId, op.group[op.gi - Distance(op)], op.group[op.gi])
    && HasMessage(op.group[op.gi].args[1])
  }

  /** The messages of the first `n` calls of a group. */
  function GroupMessages(ops: seq<Op>, n: nat): seq<Message>
    requires n <= |ops|
  {
    if n == 0 then [] else GroupMessages(ops, n - 1) + OpMessages(ops[n - 1])
  }

  /** What each group consumes if it is accepted. */
  function Parts(groups: seq<seq<Op>>): (parts: seq<seq<Message>>)
    ensures |parts| == |groups|
  {
    seq(|groups|, i requires 0 <= i < |groups| => GroupMessages(groups[i], |groups[i]|))
  }

  ghost predicate ProperGroup(ops: seq<Op>)
  {
    forall i :: 0 <= i < |ops| ==> Proper(ops[i])
  }

  // ---- Registered emitters ----

  /** The VAAs that tokens were attested from, that were paid out, and that registered a bridge. */
  datatype Dealings = Dealings(attested: seq<bytes>, redeemed: seq<bytes>, registered: seq<bytes>)

  ghost predicate Extends(d: Dealings, e: Dealings)
  {
    d.attested <= e.attested && d.redeemed <= e.redeemed && d.registered <= e.registered
  }

  ghost predicate KeepsChains(chains: map<bytes, bytes>, later: map<bytes, bytes>)
  {
    forall ch :: ch in chains ==> ch in later && later[ch] == chains[ch]
  }

  /** Emitted on a registered chain, by the emitter registered for it. */
  ghost predicate Known(chains: map<bytes, bytes>, vaa: bytes)
  {
    && |vaa| > 5
    && var off := ChainOffset(vaa);
    && off + 34 <= |vaa| && vaa[off..off + 2] in chains && chains[vaa[off..off + 2]] == vaa[off + 2..off + 34]
  }

  /** Emitted by this bridge, or on another chain by the bridge registered for it. */
  ghost predicate Trusted(app: App, chains: map<bytes, bytes>, vaa: bytes)
  {
    && |vaa| > 5
    && var off := ChainOffset(vaa);
    && off + 34 <= |vaa|
    && if vaa[off..off + 2] == ALGORAND_CHAIN then vaa[off + 2..off + 34] == app.address else Known(chains, vaa)
  }

  /** Every registered chain has its registration, and every registration is in force. */
  ghost predicate RegistryOk(chains: map<bytes, bytes>, registered: seq<bytes>)
  {
    && (forall i :: 0 <= i < |registered| ==>
          var a := BridgeActionOf(registered[i]);
          a.Some? && a.value.Register? && a.value.chain in chains && chains[a.value.chain] == a.value.emitter)
    && (forall ch :: ch in chains ==>
          exists i :: 0 <= i < |registered| && BridgeActionOf(registered[i]) == Some(Register(ch, chains[ch])))
  }

  /** An accepted attestation or redemption is on record. */
  ghost predicate Entered(d: Dealings, op: Op)
  {
    && (op.AttestCall? ==>
          op.gi < |op.group| && |op.group[op.gi].args| > 1 && op.group[op.gi].args[1] in d.attested)
    && (op.CompleteCall? ==>
          op.gi < |op.group| && |op.group[op.gi].args| > 1 && op.group[op.gi].args[1] in d.redeemed)
  }

  ghost predicate AllEntered(d: Dealings, ops: seq<Op>)
  {
    forall i :: 0 <= i < |ops| ==> Entered(d, ops[i])
  }

  ghost predicate DealingsOk(app: App, chains: map<bytes, bytes>, d: Dealings)
  {
    && RegistryOk(chains, d.registered)
    && (forall i :: 0 <= i < |d.attested| ==> Known(chains, d.attested[i]))
    && (forall i :: 0 <= i < |d.redeemed| ==> Trusted(app, chains, d.redeemed[i]))
  }

  lemma EnterAttested(app: App, chains: map<bytes, bytes>, d: Dealings, vaa: bytes)
    requires DealingsOk(app, chains, d) && Known(chains, vaa)
    ensures DealingsOk(app, chains, d.(attested := d.attested + [vaa]))
  {
  }

  lemma EnterRedeemed(app: App, chains: map<bytes, bytes>, d: Dealings, vaa: bytes)
    requires DealingsOk(app, chains, d) && Trusted(app, chains, vaa)
    ensures DealingsOk(app, chains, d.(redeemed := d.redeemed + [vaa]))
  {
  }

  lemma StayEntered(d: Dealings, e: Dealings, groups: seq<seq<Op>>, accepted: seq<bool>)
    requires Extends(d, e) && |accepted| <= |groups|
    requires forall i :: 0 <= i < |accepted| && accepted[i] ==> AllEntered(d, groups[i])
    ensures forall i :: 0 <= i < |accepted| && accepted[i] ==> AllEntered(e, groups[i])
  {
    forall i, j | 0 <= i < |accepted| && accepted[i] && 0 <= j < |groups[i]|
      ensures Entered(e, groups[i][j])
    {
      assert Entered(d, groups[i][j]);
    }
  }

  /** Registering a chain that is not registered keeps everything before it. */
  lemma EnterRegistered(app: App, chains: map<bytes, bytes>, d: Dealings, vaa: bytes)
    requires DealingsOk(app, chains, d)
    requires BridgeActionOf(vaa).Some? && BridgeActionOf(vaa).value.Register?
    requires BridgeActionOf(vaa).value.chain !in chains
    ensures var a := BridgeActionOf(vaa).value; var later := chains[a.chain := a.emitter];
      KeepsChains(chains, later) && DealingsOk(app, later, d.(registered := d.registered + [vaa]))
  {
    hide BridgeActionOf;
    var a := BridgeActionOf(vaa).value;
    var later, registered := chains[a.chain := a.emitter], d.registered + [vaa];
    assert registered[|d.registered|] == vaa;
    forall ch | ch in later
      ensures exists i :: 0 <= i < |registered| && BridgeActionOf(registered[i]) == Some(Register(ch, later[ch]))
    {
      if ch != a.chain {
        var i :| 0 <= i < |d.registered| && BridgeActionOf(d.registered[i]) == Some(Register(ch, chains[ch]));
        assert registered[i] == d.registered[i];
      }
    }
  }

  datatype Snapshot = Snapshot(chains: map<bytes, bytes>, upgradeHash: bytes, local: map<bytes, Local>)

  class Bridge {
    const c: Crypto
    const app: App
    const coreId: nat
    const storage: AppStorage

    /** Registered bridge emitter of each chain. */
    var chains: map<bytes, bytes>
    /** Hash of the program that the contract may be upgraded to. */
    var upgradeHash: bytes

    ghost var log: seq<Message>
    ghost var assets: map<Token, nat>
    ghost var dealings: Dealings

    ghost predicate Sane()
    {
      ValidApp(app) && CollisionFree(c)
    }

    ghost predicate Valid()
      reads this, storage
    {
      && Sane() && storage.Valid()
      && Distinct(log) && Bitmaps(c, app, storage.local, Consumed(log))
      && AssetsOk(c, app, storage.local, assets) && DealingsOk(app, chains, dealings)
    }

    twostate predicate Unchanged()
      reads this, storage
    {
      && chains == old(chains) && upgradeHash == old(upgradeHash) && log == old(log) && assets == old(assets)
      && storage.local == old(storage.local) && dealings == old(dealings)
    }

    constructor (c: Crypto, app: App, coreId: nat)
      requires ValidApp(app) && CollisionFree(c)
      ensures Valid() && log == [] && assets == map[] && chains == map[] && upgradeHash == [] && storage.local == map[]
      ensures dealings == Dealings([], [], [])
      ensures fresh(storage) && this.c == c && this.app == app && this.coreId == coreId
    {
      this.c, this.app, this.coreId := c, app, coreId;
      storage := new AppStorage();
      chains, upgradeHash, log, assets, dealings := map[], [], [], map[], Dealings([], [], []);
    }

    /** Any account may opt in once; its blob starts blank. */
    method Optin(t: Txn, seed: Txn, seedAmount: nat) returns (ok: bool)
      requires Valid()
      modifies storage
      ensures Valid()
      ensures ok <==>
        && seed.kind == Payment && seed.amount == seedAmount && seed.receiver == t.sender
        && t.kind == ApplicationCall && t.completion == OptIn && t.applicationId == app.id
        && t.rekeyTo == app.address && t.args == [] && t.sender !in old(storage.local)
      ensures !ok ==> storage.local == old(storage.local)
      ensures ok ==> t.sender in storage.local && Flat(storage.local[t.sender]) == Zeros(MAX_BYTES)
                     && storage.local == old(storage.local)[t.sender := storage.local[t.sender]]
    {
      hide SigAddress, CollisionFree;
      if !OptinOk(app.id, app.address, t, seed, seedAmount) { return false; }
      ghost var before := storage.local;
      ok := storage.Zero(t.sender);
      if ok {
        BitmapsKept(c, app, before, t.sender, storage.local[t.sender], Consumed(log));
        AssetsKept(c, app, before, t.sender, storage.local[t.sender], assets);
      }
    }

    /** Consumes the message of a VAA, or refuses it. */
    method Consume(vaa: bytes, account: bytes) returns (ok: bool)
      requires Valid()
      modifies this`log, storage
      ensures Valid()
      ensures ok <==> Fresh(c, app, old(storage.local), Consumed(old(log)), vaa, account)
      ensures !ok ==> Unchanged()
      ensures ok ==> log == old(log) + [MessageOf(vaa)] && MessageOf(vaa) !in old(log)
      ensures ok ==> account in storage.local && storage.local == old(storage.local)[account := storage.local[account]]
    {
      hide SigAddress, CollisionFree;
      ghost var before := storage.local;
      ok := CheckForDuplicate(c, app, storage, vaa, account, false, Consumed(log));
      if ok {
        BitmapIsNoAsset(c, app, MessageOf(vaa));
        AssetsKept(c, app, before, account, storage.local[account], assets);
        LogGrows(log, MessageOf(vaa));
        log := log + [MessageOf(vaa)];
      }
    }

    /** The VAA was emitted by the bridge registered for its chain. */
    predicate FromRegistered(vaa: bytes)
      requires |vaa| > 5 && ChainOffset(vaa) + 34 <= |vaa|
      reads this
    {
      var off := ChainOffset(vaa);
      var chain := vaa[off..off + 2];
      chain in chains && chains[chain] == vaa[off + 2..off + 34]
    }

    /** The asset id in a token's blob; if there is none, the new asset `created` is entered. */
    method Reserve(account: bytes, created: nat) returns (asset: Option<bytes>, isNew: bool)
      requires storage.Valid() && created < U64
      modifies storage
      ensures storage.Valid() && (asset.Some? <==> account in old(storage.local))
      ensures asset == None ==> storage.local == old(storage.local)
      ensures asset.Some? ==>
        && account in storage.local && storage.local == old(storage.local)[account := storage.local[account]]
        && (isNew <==> Flat(old(storage.local)[account])[0..8] == Zeros(8))
        && asset.value == (if isNew then FromInt(created, 8) else Flat(old(storage.local)[account])[0..8])
        && Flat(storage.local[account])[0..8] == asset.value
    {
      isNew := false;
      asset := storage.Read(account, 0, 8);
      if asset == None || asset.value != Zeros(8) { return; }
      ghost var f := Flat(storage.local[account]);
      var written := storage.Write(account, 0, FromInt(created, 8));
      var tagged := storage.SetMeta(account, ASSET);
      SpliceSlice(f, 0, FromInt(created, 8), 0, 8);
      asset := Some(FromInt(created, 8));
      isNew := true;
    }

    /** The id read from a token's blob is its asset, if it has one. */
    lemma ReservedId(local: map<bytes, Local>, k: Token, asset: bytes, isNew: bool, created: nat)
      requires ValidApp(app) && AllWellFormed(local) && TokenOk(c, app, local, assets, k) && 0 < created < U64
      requires AssetBlob(c, app, k) in local
      requires isNew <==> Flat(local[AssetBlob(c, app, k)])[0..8] == Zeros(8)
      requires asset == (if isNew then FromInt(created, 8) else Flat(local[AssetBlob(c, app, k)])[0..8])
      ensures isNew <==> k !in assets
      ensures var id := if k in assets then assets[k] else created;
        0 < id < U64 && asset == FromInt(id, 8) && ToInt(asset) == id
    {
      var id := if k in assets then assets[k] else created;
      ZeroId(id);
      Reads(id, 8);
    }

    /** Stores an attestation in the token's blob; a token seen for the first time gets the new asset `created`. */
    method Record(vaa: bytes, account: bytes, created: nat) returns (r: Option<nat>, isNew: bool)
      requires Valid() && IsAttest(vaa) && 0 < created < U64 && account == AssetBlob(c, app, TokenOf(vaa))
      requires |vaa| < 4096
      modifies this`assets, storage
      ensures Valid()
      ensures r.Some? <==> account in old(storage.local) && 8 + |BodyOf(vaa)| < MAX_BYTES
      ensures r == None ==> Unchanged()
      ensures r.Some? ==> var k := TokenOf(vaa);
                assets == (if k in old(assets) then old(assets) else old(assets)[k := created]) && r.value == assets[k]
                && (isNew <==> k !in old(assets))
    {
      hide SigAddress, CollisionFree, Bitmaps, ToInt, FromInt, Flat, Splice, Records, WellFormed;
      var saved := storage.local;
      ghost var k := TokenOf(vaa);
      assert TokenOk(c, app, saved, assets, k);
      var asset;
      asset, isNew := Reserve(account, created);
      if asset == None { return None, false; }
      ReservedId(saved, k, asset.value, isNew, created);
      ghost var id, middle := if k in assets then assets[k] else created, storage.local[account];
      var stored := storage.Write(account, 8, BodyOf(vaa));
      if stored == None {
        storage.local := saved;
        return None, false;
      }
      BodyRecords(Flat(middle), Flat(storage.local[account]), vaa, id);
      assert storage.local == saved[account := storage.local[account]];
      RecordKeeps(c, app, saved, k, storage.local[account], assets, id, Consumed(log));
      assets := assets[k := id];
      r := Some(ToInt(asset.value));
    }

    /**
     * When receiveAttest succeeds: a group of the right shape with a fresh attestation of a registered bridge, and the
     * token's own blob, where its body fits.
     */
    ghost predicate Attestable(group: seq<Txn>, gi: nat)
      requires Sane() && gi < |group|
      reads this, storage
    {
      && AttestGroup(coreId, app.id, group, gi)
      && var t, vaa := group[gi], group[gi].args[1];
      && Fresh(c, app, storage.local, Consumed(log), vaa, t.accounts[1])
      && IsAttest(vaa) && FromRegistered(vaa)
      && t.accounts[3] == AssetBlob(c, app, TokenOf(vaa)) && t.accounts[3] in storage.local
      && 8 + |BodyOf(vaa)| < MAX_BYTES
    }

    /** receiveAttest: consumes a verified attestation of a registered bridge and records its token. */
    method ReceiveAttest(group: seq<Txn>, gi: nat, created: nat) returns (r: Option<nat>, params: Option<NewAsset>)
      requires Valid() && gi < |group| && 0 < created < U64
      requires |group[gi].args| > 1 ==> |group[gi].args[1]| < 4096
      modifies this`log, this`assets, this`dealings, storage
      ensures Valid()
      ensures r == None ==> Unchanged()
      ensures r.Some? <==> old(Attestable(group, gi))
      ensures r.Some? ==>
        && log == old(log) + [MessageOf(group[gi].args[1])]
        && var k := TokenOf(group[gi].args[1]);
        && assets == (if k in old(assets) then old(assets) else old(assets)[k := created]) && r.value == assets[k]
        && (params.Some? <==> k !in old(assets))
      ensures r.Some? ==> 4 <= gi && VerifiedByCore(coreId, group[gi - 4], group[gi]) && HasMessage(group[gi].args[1])
      ensures params.Some? ==> r.Some? && Describes(group[gi].args[1], params.value)
      ensures r.Some? ==> dealings == old(dealings).(attested := old(dealings).attested + [group[gi].args[1]])
    {
      hide SigAddress, CollisionFree, Bitmaps, AssetsOk, DealingsOk, WellFormed, Distinct, Describes;
      var t := group[gi];
      if !AttestGroup(coreId, app.id, group, gi) { return None, None; }
      var saved := storage.local;
      ghost var savedLog := log;
      var vaa := t.args[1];
      var ok := Consume(vaa, t.accounts[1]);
      if !ok { return None, None; }
      ok := FromRegistered(vaa) && IsAttest(vaa);
      if ok {
        var k := TokenOf(vaa);
        ok := t.accounts[3] == SigAddress(c, app, k.0, k.1);
      }
      r := None;
      var isNew := false;
      if ok {
        r, isNew := Record(vaa, t.accounts[3], created);
      }
      if r == None {
        log := savedLog;
        storage.local := saved;
        return None, None;
      }
      EnterAttested(app, chains, dealings, vaa);
      dealings := dealings.(attested := dealings.attested + [vaa]);
      params := None;
      if isNew {
        var p := AssetParams(vaa);
        params := Some(p);
      }
    }

    /** Name, symbol and decimals of the asset: trimmed at the first zero, eight characters, eight decimals. */
    method AssetParams(vaa: bytes) returns (p: NewAsset)
      requires IsAttest(vaa)
      ensures Describes(vaa, p)
    {
      var off := ChainOffset(vaa) + 43;
      var decimals: int := vaa[off + 35];
      var symbol := TrimBytes(vaa[off + 36..off + 68]);
      if |symbol| > 8 { symbol := symbol[..8]; }
      var name := TrimBytes(vaa[off + 68..off + 100]);
      if decimals > 8 { decimals := 8; }
      p := NewAsset(name, symbol, decimals);
    }

    /** However often a token is attested, its blob reads back the first asset and exactly the token's identity. */
    lemma Identity(k: Token)
      requires Valid() && IsToken(k) && k in assets
      ensures AssetBlob(c, app, k) in storage.local && Records(Flat(storage.local[AssetBlob(c, app, k)]), k, assets[k])
    {
      assert TokenOk(c, app, storage.local, assets, k);
    }

    /** When governance succeeds: a fresh VAA of the current set that was just verified; a chain registers once. */
    ghost predicate Governable(group: seq<Txn>, gi: nat, currentSet: nat)
      requires Sane() && gi < |group|
      reads this, storage
    {
      && 0 < gi && VerifiedByCore(coreId, group[gi - 1], group[gi]) && CommonChecks(group[gi])
      && var vaa := group[gi].args[1]; var a := BridgeActionOf(vaa);
      && a.Some? && ToInt(vaa[1..5]) == currentSet && (a.value.Register? ==> a.value.chain !in chains)
      && Fresh(c, app, storage.local, Consumed(log), vaa, group[gi].accounts[1])
    }

    /**
     * governance: registers the bridge of a chain, once, or approves an upgrade, from a verified VAA of the current
     * set.
     */
    method Governance(group: seq<Txn>, gi: nat, currentSet: nat) returns (ok: bool)
      requires Valid() && gi < |group|
      modifies this`log, this`chains, this`upgradeHash, this`dealings, storage
      ensures Valid() && assets == old(assets) && KeepsChains(old(chains), chains)
      ensures !ok ==> Unchanged()
      ensures ok <==> old(Governable(group, gi, currentSet))
      ensures ok ==> 0 < gi && VerifiedByCore(coreId, group[gi - 1], group[gi]) && HasMessage(group[gi].args[1])
      ensures ok ==> BridgeActionOf(group[gi].args[1]).Some? && ToInt(group[gi].args[1][1..5]) == currentSet
      ensures ok ==> log == old(log) + [MessageOf(group[gi].args[1])]
      ensures ok ==> var a := BridgeActionOf(group[gi].args[1]).value;
                && chains == (if a.Register? then old(chains)[a.chain := a.emitter] else old(chains))
                && upgradeHash == (if a.ApproveUpgrade? then a.hash else old(upgradeHash))
                && dealings == if a.Register?
                               then old(dealings).(registered := old(dealings).registered + [group[gi].args[1]])
                               else old(dealings)
    {
      hide SigAddress, CollisionFree, Bitmaps, AssetsOk;
      var t := group[gi];
      if gi == 0 || !VerifiedByCore(coreId, group[gi - 1], t) || !CommonChecks(t) { return false; }
      var vaa := t.args[1];
      var action := BridgeActionOf(vaa);
      if action == None || ToInt(vaa[1..5]) != currentSet { return false; }
      hide BridgeActionOf;
      if action.value.Register? && action.value.chain in chains { return false; }
      ok := Consume(vaa, t.accounts[1]);
      if ok {
        match action.value {
          case Register(chain, emitter) =>
            EnterRegistered(app, chains, dealings, vaa);
            chains := chains[chain := emitter];
            dealings := dealings.(registered := dealings.registered + [vaa]);
          case ApproveUpgrade(hash) => upgradeHash := hash;
        }
      }
    }

    // ---- Transfers ----

    /** Where a payload-3 transfer goes: the application named in the destination, called right after us. */
    function Destination(group: seq<Txn>, gi: nat, x: Incoming, selector: bytes,
                         appAddress: nat -> Option<bytes>): Option<bytes>
      requires gi < |group| && |group[gi].args| > 1 && |x.destination| == 32
    {
      if x.kind != 3 then Some(x.destination)
      else
        var id, vaa := ToInt(x.destination[24..32]), group[gi].args[1];
        if gi + 1 < |group| && group[gi + 1].kind == ApplicationCall && Calls(group[gi + 1], selector)
           && |group[gi + 1].args| > 1 && group[gi + 1].args[1] == FromInt(|vaa|, 2) + vaa
              && group[gi + 1].applicationId == id
        then appAddress(id) else None
    }

    /** What a transfer is worth here: the native asset scaled back, or the token's wrapped asset as it is. */
    ghost function Payout(x: Incoming, account: bytes, decimals: nat): Option<(nat, nat, nat)>
      requires Sane() && |x.origin| == 32
      reads this
    {
      var k := (x.originChain, x.origin);
      if x.originChain == 8 then
        var asset := ToInt(x.origin[24..32]);
        match ScaleBack(x, asset, decimals)
        case None => None
        case Some((amount, fee)) =>
          if account == SigAddress(c, app, asset, NATIVE) then Some((asset, amount, fee)) else None
      else if k in assets && account == AssetBlob(c, app, k) then Some((assets[k], x.amount, x.fee))
      else None
    }

    /** The asset of a transfer, read from the blob that the caller passed. */
    method Resolve(x: Incoming, account: bytes, decimals: nat) returns (r: Option<(nat, nat, nat)>)
      requires Valid() && |x.origin| == 32 && x.originChain < U16
      ensures r == Payout(x, account, decimals)
    {
      hide SigAddress, CollisionFree, Bitmaps;
      if x.originChain == 8 {
        var asset := ToInt(x.origin[24..32]);
        if account != SigAddress(c, app, asset, NATIVE) { return None; }
        var paid := ScaleBack(x, asset, decimals);
        if paid == None { return None; }
        return Some((asset, paid.value.0, paid.value.1));
      }
      ghost var k := (x.originChain, x.origin);
      assert TokenOk(c, app, storage.local, assets, k);
      if account != SigAddress(c, app, x.originChain, x.origin) { return None; }
      var asset := storage.Read(account, 0, 8);
      if asset == None { return None; }
      assert asset.value == Flat(storage.local[account])[0..8];
      ZeroId(0);
      Reads(0, 8);
      if k in assets { Reads(assets[k], 8); }
      if ToInt(asset.value) == 0 { return None; }
      r := Some((ToInt(asset.value), x.amount, x.fee));
    }

    /** The emitter is this bridge, or the one registered for the VAA's chain. */
    predicate FromBridge(vaa: bytes)
      requires |vaa| > 5 && ChainOffset(vaa) + 34 <= |vaa|
      reads this
    {
      var off := ChainOffset(vaa);
      if ToInt(vaa[off..off + 2]) == 8 then app.address == vaa[off + 2..off + 34] else FromRegistered(vaa)
    }

    /** What completeTransfer releases, in terms of the consumed messages and the recorded assets. */
    ghost function Redeemed(group: seq<Txn>, gi: nat, decimals: nat, selector: bytes,
                            appAddress: nat -> Option<bytes>): Option<Release>
      requires Sane() && gi < |group|
      reads this, storage
    {
      var t := group[gi];
      if gi == 0 || !VerifiedByCore(coreId, group[gi - 1], t) || !CommonChecks(t) || |t.accounts| < 4
         || !Fresh(c, app, storage.local, Consumed(log), t.args[1], t.accounts[1])
         || ChainOffset(t.args[1]) + 43 > |t.args[1]| || !FromBridge(t.args[1]) then None
      else
        match ParseIncoming(t.args[1][ChainOffset(t.args[1]) + 43..])
        case None => None
        case Some(x) =>
          var receiver, paid := Destination(group, gi, x, selector, appAddress), Payout(x, t.accounts[3], decimals);
          if receiver == None || paid == None then None
          else Some(Release(paid.value.0, t.accounts[3], receiver.value, paid.value.1, t.sender, paid.value.2))
    }

    /** completeTransfer: consumes a verified transfer to Algorand and pays it out of the escrow account. */
    method CompleteTransfer(group: seq<Txn>, gi: nat, decimals: nat, selector: bytes, appAddress: nat -> Option<bytes>)
      returns (r: Option<Release>)
      requires Valid() && gi < |group|
      modifies this`log, this`dealings, storage
      ensures Valid()
      ensures r == old(Redeemed(group, gi, decimals, selector, appAddress))
      ensures r == None ==> Unchanged()
      ensures r.Some? ==> 0 < gi && VerifiedByCore(coreId, group[gi - 1], group[gi]) && HasMessage(group[gi].args[1])
      ensures r.Some? ==> log == old(log) + [MessageOf(group[gi].args[1])]
      ensures r.Some? ==> dealings == old(dealings).(redeemed := old(dealings).redeemed + [group[gi].args[1]])
    {
      hide SigAddress, CollisionFree, Bitmaps, AssetsOk, ParseIncoming, ScaleBack, DealingsOk, Destination,
        CommonChecks, Distinct, WellFormed;
      var t := group[gi];
      if gi == 0 || !VerifiedByCore(coreId, group[gi - 1], t) || !CommonChecks(t) || |t.accounts| < 4 { return None; }
      var saved := storage.local;
      ghost var savedLog := log;
      var vaa := t.args[1];
      var ok := Consume(vaa, t.accounts[1]);
      if !ok { return None; }
      r := None;
      if ChainOffset(vaa) + 43 <= |vaa| && FromBridge(vaa) {
        var x := ParseIncoming(vaa[ChainOffset(vaa) + 43..]);
        if x.Some? {
          var receiver := Destination(group, gi, x.value, selector, appAddress);
          var paid := Resolve(x.value, t.accounts[3], decimals);
          if receiver.Some? && paid.Some? {
            r := Some(Release(paid.value.0, t.accounts[3], receiver.value, paid.value.1, t.sender, paid.value.2));
          }
        }
      }
      if r == None {
        log := savedLog;
        storage.local := saved;
      } else {
        EightOnly(vaa[ChainOffset(vaa)..ChainOffset(vaa) + 2]);
        EnterRedeemed(app, chains, dealings, vaa);
        dealings := dealings.(redeemed := dealings.redeemed + [vaa]);
      }
    }

    /** What the group names as receiver: the target, or the application that is called with the VAA right after. */
    lemma ReceiverOf(v: VAA, x: Transfer, incoming: Incoming, group: seq<Txn>, gi: nat, selector: bytes,
                     appAddress: nat -> Option<bytes>)
      requires gi < |group| && |group[gi].args| > 1 && group[gi].args[1] == Encode(v)
      requires incoming.kind == x.kind && incoming.destination == x.target && (x.kind == 1 || x.kind == 3)
      ensures var r, id := Destination(group, gi, incoming, selector, appAddress), ToInt(x.target[24..32]);
        && (x.kind == 1 ==> r == Some(x.target))
        && (x.kind == 3 && r.Some? ==> r == appAddress(id))
        && (x.kind == 3 ==>
              (r.Some? <==>
                && gi + 1 < |group| && group[gi + 1].kind == ApplicationCall && group[gi + 1].applicationId == id
                && |group[gi + 1].args| > 1 && group[gi + 1].args[0] == selector
                && group[gi + 1].args[1] == FromInt(|Encode(v)|, 2) + Encode(v) && appAddress(id).Some?))
    {
      hide ToInt, FromInt, Encode;
    }

    /** What a transfer is worth: a native asset times the factor, a wrapped one as it is, less the fee. */
    lemma WorthOf(x: Transfer, fee: u64, incoming: Incoming, account: bytes, decimals: nat)
      requires Sane() && |x.originChain| == 2 && fee <= x.amount
      requires incoming == Incoming(x.kind, x.amount - fee, fee, x.origin, ToInt(x.originChain), x.target)
      ensures var r := Payout(incoming, account, decimals);
        var k, id := (ToInt(x.originChain), x.origin), ToInt(x.origin[24..32]);
        && (x.originChain != [0, 8] ==>
              (r.Some? <==> k in assets && account == AssetBlob(c, app, k))
              && (r.Some? ==> r.value == (assets[k], x.amount - fee, fee as nat)))
        && (x.originChain == [0, 8] ==>
              && (r.Some? <==>
                    && account == SigAddress(c, app, id, NATIVE)
                    && (id == 0 || decimals <= 19)
                    && (x.amount - fee) * FactorOf(id, decimals) < U64 && fee * FactorOf(id, decimals) < U64)
              && (r.Some? ==> r.value == (id, (x.amount - fee) * FactorOf(id, decimals), fee * FactorOf(id, decimals))))
    {
      hide SigAddress, CollisionFree, GetFactor, FromInt;
      EightOnly(x.originChain);
    }

    /**
     * Which redemptions of a transfer are accepted, whatever VAA carries it: those of a VAA that the core verified in
     * the group, not consumed before, emitted by the bridge registered for its chain or by this one, whose fee does
     * not exceed the amount, and with the account that holds the asset.
     */
    lemma RedeemsExactly(v: VAA, x: Transfer, fee: u64, rest: bytes, group: seq<Txn>, gi: nat, decimals: nat,
                         selector: bytes, appAddress: nat -> Option<bytes>)
      requires Sane() && |v.signatures| <= 255 && Carries(v.payload, x, fee, rest)
      requires gi < |group| && |group[gi].args| > 1 && group[gi].args[1] == Encode(v)
      ensures Redeemed(group, gi, decimals, selector, appAddress).Some? <==>
        && 0 < gi && VerifiedByCore(coreId, group[gi - 1], group[gi]) && CommonChecks(group[gi])
        && Fresh(c, app, storage.local, Consumed(log), Encode(v), group[gi].accounts[1])
        && (if v.emitterChain == 8 then v.emitterAddress == app.address
            else FromInt(v.emitterChain, 2) in chains && chains[FromInt(v.emitterChain, 2)] == v.emitterAddress)
        && fee <= x.amount
        && (x.kind == 3 ==>
              var id := ToInt(x.target[24..32]);
              && gi + 1 < |group| && group[gi + 1].kind == ApplicationCall && group[gi + 1].applicationId == id
              && |group[gi + 1].args| > 1 && group[gi + 1].args[0] == selector
              && group[gi + 1].args[1] == FromInt(|Encode(v)|, 2) + Encode(v) && appAddress(id).Some?)
        && |group[gi].accounts| > 3
        && var account, k, id := group[gi].accounts[3], (ToInt(x.originChain), x.origin), ToInt(x.origin[24..32]);
          if x.originChain != [0, 8] then k in assets && account == AssetBlob(c, app, k)
          else
            && account == SigAddress(c, app, id, NATIVE) && (id == 0 || decimals <= 19)
            && (x.amount - fee) * FactorOf(id, decimals) < U64 && fee * FactorOf(id, decimals) < U64
    {
      hide SigAddress, CollisionFree, TransferHead, FeeTail, ParseIncoming, ScaleBack, Encode, Destination, Payout,
        Fresh, VerifiedByCore, CommonChecks, ToInt, FactorOf;
      Reading(v, x, fee, rest);
      if fee <= x.amount {
        var incoming := Incoming(x.kind, x.amount - fee, fee, x.origin, ToInt(x.originChain), x.target);
        ReceiverOf(v, x, incoming, group, gi, selector, appAddress);
        if |group[gi].accounts| > 3 { WorthOf(x, fee, incoming, group[gi].accounts[3], decimals); }
      }
    }

    /** The contract's view of a VAA that carries a transfer. */
    lemma Reading(v: VAA, x: Transfer, fee: u64, rest: bytes)
      requires |v.signatures| <= 255 && Carries(v.payload, x, fee, rest)
      ensures var vaa := Encode(v); var off := ChainOffset(vaa);
        && |vaa| > 5 && off + 43 <= |vaa|
        && (FromBridge(vaa) <==>
              if v.emitterChain == 8 then v.emitterAddress == app.address
              else FromInt(v.emitterChain, 2) in chains && chains[FromInt(v.emitterChain, 2)] == v.emitterAddress)
        && ParseIncoming(vaa[off + 43..]) ==
           if fee <= x.amount then Some(Incoming(x.kind, x.amount - fee, fee, x.origin, ToInt(x.originChain), x.target))
           else None
    {
      hide TransferHead, FeeTail, ParseIncoming, Encode;
      EmitterAt(v);
      WholePayload(v);
      Reads(v.emitterChain, 2);
      if x.kind == 1 {
        ParsesWithFee(x, fee, rest);
      } else {
        ParsesWithPayload(x, rest);
      }
    }

    /**
     * What an accepted redemption pays. A wrapped asset comes out of its token's own blob, a native one out of its
     * escrow times the factor; the receiver gets the amount less the fee, and the relayer the fee. With a payload
     * there is no fee, and the receiver is the application named in the target.
     */
    lemma RedeemsAs(v: VAA, x: Transfer, fee: u64, rest: bytes, group: seq<Txn>, gi: nat, decimals: nat,
                    selector: bytes, appAddress: nat -> Option<bytes>)
      requires Sane() && |v.signatures| <= 255 && Carries(v.payload, x, fee, rest)
      requires gi < |group| && |group[gi].args| > 1 && group[gi].args[1] == Encode(v)
      requires Redeemed(group, gi, decimals, selector, appAddress).Some?
      ensures fee <= x.amount && Redeemed(group, gi, decimals, selector, appAddress).value.relayer == group[gi].sender
      ensures var r := Redeemed(group, gi, decimals, selector, appAddress).value;
        && (x.kind == 1 ==> r.receiver == x.target)
        && (x.kind == 3 ==> fee == 0 && Some(r.receiver) == appAddress(ToInt(x.target[24..32])))
      ensures var r, k := Redeemed(group, gi, decimals, selector, appAddress).value, (ToInt(x.originChain), x.origin);
        x.originChain != [0, 8] ==>
          && k in assets && r.asset == assets[k] && r.escrow == AssetBlob(c, app, k)
          && r.amount == x.amount - fee && r.fee == fee
      ensures var r, id := Redeemed(group, gi, decimals, selector, appAddress).value, ToInt(x.origin[24..32]);
        x.originChain == [0, 8] ==>
          && (id == 0 || decimals <= 19) && r.asset == id && r.escrow == SigAddress(c, app, id, NATIVE)
          && r.amount == (x.amount - fee) * FactorOf(id, decimals) && r.fee == fee * FactorOf(id, decimals)
    {
      hide SigAddress, CollisionFree, TransferHead, FeeTail, ParseIncoming, ScaleBack, Encode, Destination, Payout,
        Fresh, VerifiedByCore, CommonChecks, ToInt, FactorOf;
      Reading(v, x, fee, rest);
      var incoming := Incoming(x.kind, x.amount - fee, fee, x.origin, ToInt(x.originChain), x.target);
      ReceiverOf(v, x, incoming, group, gi, selector, appAddress);
      WorthOf(x, fee, incoming, group[gi].accounts[3], decimals);
    }

    /** Nothing else is ever paid: the payload of every accepted redemption is such a transfer. */
    lemma RedeemsOnly(v: VAA, group: seq<Txn>, gi: nat, decimals: nat, selector: bytes,
                      appAddress: nat -> Option<bytes>)
      returns (x: Transfer, fee: u64, rest: bytes)
      requires Sane() && |v.signatures| <= 255
      requires gi < |group| && |group[gi].args| > 1 && group[gi].args[1] == Encode(v)
      requires Redeemed(group, gi, decimals, selector, appAddress).Some?
      ensures Carries(v.payload, x, fee, rest)
    {
      hide SigAddress, CollisionFree, TransferHead, FeeTail, ParseIncoming, Encode, Destination, Payout, Fresh;
      WholePayload(v);
      x, fee, rest := ParsesOnly(v.payload);
    }

    /** The message fee, if any, was paid two transactions earlier. */
    predicate FeePaid(group: seq<Txn>, gi: nat, fee: nat)
      requires gi < |group|
    {
      fee > 0 ==>
        && 2 <= gi
        && var p := group[gi - 2];
        && p.kind == Payment && p.sender == group[gi].sender && p.receiver == app.address && p.amount >= fee
           && CommonChecks(p)
    }

    /** Everything sendTransfer asks for, except the account that holds the asset. */
    predicate Sendable(group: seq<Txn>, gi: nat, decimals: nat, messageFee: nat)
      requires gi < |group|
    {
      && 0 < gi && FeePaid(group, gi, messageFee)
      && var t, d := group[gi], group[gi - 1];
      && 6 <= |t.args| <= 7 && |t.accounts| > 2
      && |t.args[1]| <= 8 && |t.args[3]| <= 32 && |t.args[4]| >= 8 && |t.args[5]| <= 8
      && var asset := ToInt(t.args[1]);
      && d.kind == (if asset == 0 then Payment else AssetTransfer) && (asset != 0 ==> d.xferAsset == asset)
      && d.sender == t.sender && d.receiver == t.accounts[2] && CommonChecks(d)
      && ToInt(t.args[5]) <= d.amount
      && (asset != 0 ==> decimals <= 19)
      && ScaleDown(d.amount, FactorOf(asset, decimals)) > 0
    }

    /** The account is the blob of an attested token, and the argument is its asset. */
    ghost predicate HoldsToken(t: Txn, k: Token)
      requires Sane() && |t.args| > 1 && |t.accounts| > 2
      reads this
    {
      IsToken(k) && k in assets && t.accounts[2] == AssetBlob(c, app, k) && t.args[1] == FromInt(assets[k], 8)
    }

    /** Address and chain of the asset: its own id on Algorand if native, the recorded token if wrapped. */
    method Origin(t: Txn, asset: nat, wrapped: bool, ghost k: Token) returns (r: Option<(bytes, bytes)>)
      requires Valid() && |t.args| > 1 && |t.accounts| > 2 && |t.args[1]| <= 8 && asset == ToInt(t.args[1])
      requires wrapped ==> asset != 0
      ensures !wrapped ==>
        r == if t.accounts[2] == SigAddress(c, app, asset, NATIVE) then Some((t.args[1], ALGORAND_CHAIN)) else None
      ensures wrapped && r.Some? ==>
        && |r.value.0| == 32 && |r.value.1| == 2
        && var j := (ToInt(r.value.1), r.value.0);
        && HoldsToken(t, j) && assets[j] == asset
      ensures wrapped && HoldsToken(t, k) ==> r == Some((k.1, FromInt(k.0, 2)))
    {
      hide SigAddress, CollisionFree, Bitmaps, DealingsOk, Distinct, Flat, WellFormed, FromInt, ToInt;
      var account := t.accounts[2];
      if !wrapped {
        if account != SigAddress(c, app, asset, NATIVE) { return None; }
        return Some((t.args[1], ALGORAND_CHAIN));
      }
      assert IsToken(k) ==> TokenOk(c, app, storage.local, assets, k);
      if IsToken(k) { Reads(k.0, 2); }
      var id := storage.Read(account, 0, 8);
      if id == None || t.args[1] != id.value { return None; }
      ghost var f := Flat(storage.local[account]);
      var address := storage.Read(account, 60, 92);
      var chain := storage.Read(account, 92, 94);
      assert id.value == f[0..8] && address.value == f[60..92] && chain.value == f[92..94];
      if account != SigAddress(c, app, ToInt(chain.value), address.value) { return None; }
      ghost var j := (ToInt(chain.value), address.value);
      Fits(chain.value, 2);
      assert TokenOk(c, app, storage.local, assets, j);
      ZeroId(0);
      Reads(0, 8);
      if j in assets { Reads(assets[j], 8); }
      r := Some((address.value, chain.value));
    }

    /** The payload: the amount and the fee scaled down, origin, target, and the fee or the attached data. */
    ghost predicate Sent(group: seq<Txn>, gi: nat, decimals: nat, messageFee: nat, p: bytes, x: Transfer)
      requires gi < |group|
    {
      && Sendable(group, gi, decimals, messageFee) && WellSized(x)
      && var t, d := group[gi], group[gi - 1]; var f := FactorOf(ToInt(t.args[1]), decimals);
      && x.amount == ScaleDown(d.amount, f) && x.kind == (if |t.args| == 7 then 3 else 1)
      && x.target == Pad32(t.args[3]) && x.targetChain == t.args[4][6..8]
      && ScaleDown(ToInt(t.args[5]), f) < U64
      && p == TransferHead(x) + if |t.args| == 7 then t.sender + t.args[6] else FeeTail(ScaleDown(ToInt(t.args[5]), f))
    }

    /** An asset is wrapped if the authorizing address of its creator is this application. */
    predicate Wrapped(t: Txn, authAddr: bytes)
    {
      |t.args| > 1 && ToInt(t.args[1]) != 0 && authAddr == app.address
    }

    /**
     * When sendTransfer succeeds, field by field: the transaction before is the deposit, of this very asset, by the
     * sender, to the account that holds it for the bridge, and nothing is closed out or rekeyed.
     */
    ghost predicate Deposited(group: seq<Txn>, gi: nat, decimals: nat, authAddr: bytes, messageFee: nat)
      requires Sane() && gi < |group|
      reads this
    {
      && 0 < gi && var t, d := group[gi], group[gi - 1];
      && 6 <= |t.args| <= 7 && |t.accounts| > 2
      && |t.args[1]| <= 8 && |t.args[3]| <= 32 && |t.args[4]| >= 8 && |t.args[5]| <= 8
      // The deposit: this asset, by the sender, to the account of the asset, with nothing closed out or rekeyed
      && var asset := ToInt(t.args[1]);
      && (asset == 0 ==> d.kind == Payment)
      && (asset != 0 ==> d.kind == AssetTransfer && d.xferAsset == asset && decimals <= 19)
      && d.sender == t.sender && d.receiver == t.accounts[2]
      && d.rekeyTo == ZERO_ADDRESS && d.closeRemainderTo == ZERO_ADDRESS && d.assetCloseTo == ZERO_ADDRESS
      && d.completion == NoOp
      // More than dust, and no less than the fee for the relayer
      && d.amount >= FactorOf(asset, decimals) && ToInt(t.args[5]) <= d.amount
      // The message fee, to the bridge
      && (messageFee > 0 ==>
            && 2 <= gi && var p := group[gi - 2];
            && p.kind == Payment && p.sender == t.sender && p.receiver == app.address && p.amount >= messageFee
            && p.rekeyTo == ZERO_ADDRESS && p.closeRemainderTo == ZERO_ADDRESS && p.assetCloseTo == ZERO_ADDRESS
            && p.completion == NoOp)
      // The account: the native escrow, or the blob of an attested token
      && if asset == 0 || authAddr != app.address then t.accounts[2] == SigAddress(c, app, asset, NATIVE)
         else exists k: Token ::
           IsToken(k) && k in assets && t.accounts[2] == AssetBlob(c, app, k) && t.args[1] == FromInt(assets[k], 8)
    }

    /** sendTransfer: checks the deposit, scales it down and builds the payload that the core publishes. */
    method SendTransfer(group: seq<Txn>, gi: nat, decimals: nat, authAddr: bytes, messageFee: nat)
      returns (r: Option<bytes>, ghost x: Transfer)
      requires Valid() && gi < |group| && (forall i :: 0 <= i < |group| ==> group[i].amount < U64)
      ensures r.Some? ==> Sent(group, gi, decimals, messageFee, r.value, x)
      ensures r.Some? && !Wrapped(group[gi], authAddr) ==>
        x.origin == Pad32(group[gi].args[1]) && x.originChain == ALGORAND_CHAIN
      ensures r.Some? && Wrapped(group[gi], authAddr) ==> HoldsToken(group[gi], (ToInt(x.originChain), x.origin))
      ensures r.Some? <==> Deposited(group, gi, decimals, authAddr, messageFee)
      ensures r.Some? ==>
        && 0 < gi && |group[gi].args| > 1 && (ToInt(group[gi].args[1]) != 0 ==> decimals <= 19)
        && x.amount * FactorOf(ToInt(group[gi].args[1]), decimals) <= group[gi - 1].amount
    {
      hide SigAddress, CollisionFree, Bitmaps, AssetsOk, ScaleDown, GetFactor, FromInt, ToInt;
      x := Transfer(0, 0, Zeros(32), [0, 0], Zeros(32), [0, 0]);
      if gi > 0 && |group[gi].args| > 1 && (ToInt(group[gi].args[1]) != 0 ==> decimals <= 19) {
        Undusted(group[gi - 1].amount, FactorOf(ToInt(group[gi].args[1]), decimals));
      }
      if !Sendable(group, gi, decimals, messageFee) { return None, x; }
      var t, deposit := group[gi], group[gi - 1];
      var asset, fee, amount := ToInt(t.args[1]), ToInt(t.args[5]), deposit.amount;
      var factor := FactorOf(asset, decimals);
      amount, fee := ScaleDown(amount, factor), ScaleDown(fee, factor);
      ghost var k: Token := (0, []);
      if exists j: Token :: HoldsToken(t, j) {
        k :| HoldsToken(t, k);
      }
      assert forall j: Token ::
          IsToken(j) && j in assets && t.accounts[2] == AssetBlob(c, app, j) && t.args[1] == FromInt(assets[j], 8) ==>
            HoldsToken(t, j);
      var origin := Origin(t, asset, asset != 0 && authAddr == app.address, k);
      if origin == None { return None, x; }
      var (address, chain) := origin.value;
      assert |address| == 32 ==> Pad32(address) == address;
      var kind: byte := if |t.args| == 7 then 3 else 1;
      x := Transfer(kind, amount, Pad32(address), chain, Pad32(t.args[3]), t.args[4][6..8]);
      var tail := if |t.args| == 7 then t.sender + t.args[6] else FeeTail(fee);
      var head := [kind] + Zeros(24) + FromInt(amount, 8) + Pad32(address) + chain + Pad32(t.args[3]) + t.args[4][6..8];
      r := Some(head + tail);
    }

    /** Redeeming the payload of a native deposit pays out all but the dust, and cannot overflow. */
    lemma NativeRedeems(group: seq<Txn>, gi: nat, decimals: nat, messageFee: nat, p: bytes, x: Transfer)
      requires gi < |group| && Sent(group, gi, decimals, messageFee, p, x) && group[gi - 1].amount < U64
      requires x.origin == Pad32(group[gi].args[1]) && x.originChain == ALGORAND_CHAIN
      requires x.targetChain == ALGORAND_CHAIN
      ensures var t, a, asset := group[gi], group[gi - 1].amount, ToInt(group[gi].args[1]);
        var f, incoming := FactorOf(asset, decimals), ParseIncoming(p);
        && incoming.Some? && incoming.value.originChain == 8 && ToInt(incoming.value.origin[24..32]) == asset
        && incoming.value.destination == x.target && incoming.value.kind == x.kind
        && var paid := ScaleBack(incoming.value, asset, decimals);
        && paid.Some? && paid.value.0 + paid.value.1 == a / f * f && a - f < paid.value.0 + paid.value.1 <= a
        && paid.value.1 == if |t.args| == 7 then 0 else ToInt(t.args[5]) / f * f
    {
      hide TransferHead, ParseIncoming;
      var t, a, asset := group[gi], group[gi - 1].amount, ToInt(group[gi].args[1]);
      var f, fee := FactorOf(asset, decimals), ToInt(t.args[5]);
      DivMonotone(fee, a, f);
      if |t.args| == 7 {
        ParsesWithPayload(x, t.sender + t.args[6]);
      } else {
        assert FeeTail(fee / f) + [] == FeeTail(fee / f);
        ParsesWithFee(x, fee / f, []);
      }
      ChainIsEight(x.originChain);
      NativeId(t.args[1]);
      Conservation(asset, decimals, a, fee, ParseIncoming(p).value);
    }

    /**
     * Deposit and redemption together: whatever VAA carries the payload of a native deposit, the release that
     * completeTransfer makes for it is of the same asset and returns the deposit up to dust.
     */
    lemma DepositComesBack(group: seq<Txn>, gi: nat, decimals: nat, messageFee: nat, p: bytes, x: Transfer, v: VAA,
                           redeem: seq<Txn>, ri: nat, selector: bytes, appAddress: nat -> Option<bytes>)
      requires Sane() && gi < |group| && Sent(group, gi, decimals, messageFee, p, x) && group[gi - 1].amount < U64
      requires x.origin == Pad32(group[gi].args[1]) && x.originChain == ALGORAND_CHAIN
      requires x.targetChain == ALGORAND_CHAIN
      requires |v.signatures| <= 255 && v.payload == p && ri < |redeem| && |redeem[ri].args| > 1
      requires redeem[ri].args[1] == Encode(v)
      ensures var redeemed := Redeemed(redeem, ri, decimals, selector, appAddress);
        var a, asset := group[gi - 1].amount, ToInt(group[gi].args[1]);
        redeemed.Some? ==>
          && var r, f := redeemed.value, FactorOf(asset, decimals);
          && r.asset == asset && r.escrow == SigAddress(c, app, asset, NATIVE)
          && r.amount + r.fee == a / f * f && a - f < r.amount + r.fee <= a
          && r.relayer == redeem[ri].sender
          && (|group[gi].args| != 7 ==> r.receiver == x.target && r.fee == ToInt(group[gi].args[5]) / f * f)
          && (|group[gi].args| == 7 ==> Some(r.receiver) == appAddress(ToInt(x.target[24..32])) && r.fee == 0)
    {
      hide SigAddress, CollisionFree, TransferHead, FeeTail, ParseIncoming, ScaleBack, Encode, Sendable, Fresh,
        FromBridge, VerifiedByCore, CommonChecks, ToInt;
      NativeRedeems(group, gi, decimals, messageFee, p, x);
      WholePayload(v);
    }

    // ---- Runs ----

    /** Which calls are accepted. */
    ghost predicate Accepts(op: Op, selector: bytes, appAddress: nat -> Option<bytes>)
      requires Sane() && Proper(op)
      reads this, storage
    {
      match op
      case OptinCall(t, seed, amount) =>
        && seed.kind == Payment && seed.amount == amount && seed.receiver == t.sender
        && t.kind == ApplicationCall && t.completion == OptIn && t.applicationId == app.id
        && t.rekeyTo == app.address && t.args == [] && t.sender !in storage.local
      case AttestCall(group, gi, _) => Attestable(group, gi)
      case GovernanceCall(group, gi, currentSet) => Governable(group, gi, currentSet)
      case CompleteCall(group, gi, decimals) => Redeemed(group, gi, decimals, selector, appAddress).Some?
    }

    /** One call of any kind. */
    method Step(op: Op, selector: bytes, appAddress: nat -> Option<bytes>) returns (ok: bool)
      requires Valid() && Proper(op)
      modifies this, storage
      ensures Valid() && Progress()
      ensures !ok ==> Unchanged()
      ensures ok == old(Accepts(op, selector, appAddress))
      ensures ok ==> log == old(log) + OpMessages(op)
      ensures ok && !op.OptinCall? ==> Relies(coreId, op)
      ensures ok && op.GovernanceCall? ==> ToInt(op.group[op.gi].args[1][1..5]) == op.currentSet
      ensures ok ==> Entered(dealings, op)
    {
      hide SigAddress, CollisionFree, Bitmaps, AssetsOk, DealingsOk, IsAttest, BridgeActionOf, Redeemed, Attestable,
        Governable, AttestGroup, CommonChecks, WellFormed, Distinct, TokenOf, BodyOf;
      match op {
        case OptinCall(t, seed, amount) => ok := Optin(t, seed, amount);
        case AttestCall(group, gi, created) =>
          var r, params := ReceiveAttest(group, gi, created);
          ok := r.Some?;
        case GovernanceCall(group, gi, currentSet) => ok := Governance(group, gi, currentSet);
        case CompleteCall(group, gi, decimals) =>
          var r := CompleteTransfer(group, gi, decimals, selector, appAddress);
          ok := r.Some?;
      }
    }

    /** The log only grows, a chain keeps the emitter it got first, and a token its first asset. */
    twostate predicate Progress()
      reads this
    {
      && old(log) <= log && Extends(old(dealings), dealings) && KeepsChains(old(chains), chains)
      && old(assets).Keys <= assets.Keys && forall k :: k in old(assets) ==> assets[k] == old(assets)[k]
    }

    /** The calls of a group in order, up to the first that is refused. */
    method StepAll(ops: seq<Op>, selector: bytes, appAddress: nat -> Option<bytes>) returns (ok: bool)
      requires Valid() && ProperGroup(ops)
      modifies this, storage
      ensures Valid() && Progress()
      ensures ok ==> log == old(log) + GroupMessages(ops, |ops|) && AllEntered(dealings, ops)
    {
      hide Valid, Proper, OpMessages, Accepts;
      for i := 0 to |ops|
        invariant Valid() && Progress() && log == old(log) + GroupMessages(ops, i)
        invariant forall j :: 0 <= j < i ==> Entered(dealings, ops[j])
      {
        ok := Step(ops[i], selector, appAddress);
        if !ok { return; }
      }
      ok := true;
    }

    /** What the ledger does when a group is refused. */
    method Restore(b: Snapshot, ghost pastLog: seq<Message>, ghost pastAssets: map<Token, nat>, ghost past: Dealings)
      modifies this, storage
      ensures Snapshot(chains, upgradeHash, storage.local) == b && log == pastLog && assets == pastAssets
      ensures dealings == past
    {
      chains, upgradeHash := b.chains, b.upgradeHash;
      storage.local := b.local;
      log, assets, dealings := pastLog, pastAssets, past;
    }

    /** The calls of a group are atomic: if one is refused, nothing happened. */
    method ExecuteGroup(ops: seq<Op>, selector: bytes, appAddress: nat -> Option<bytes>) returns (ok: bool)
      requires Valid() && ProperGroup(ops)
      modifies this, storage
      ensures Valid() && Progress()
      ensures !ok ==> Unchanged()
      ensures ok ==> log == old(log) + GroupMessages(ops, |ops|) && AllEntered(dealings, ops)
    {
      hide SigAddress, CollisionFree, Bitmaps, AssetsOk, ProperGroup, Distinct, WellFormed, Consumed, GroupMessages;
      var saved := Snapshot(chains, upgradeHash, storage.local);
      ghost var savedLog, savedAssets, past := log, assets, dealings;
      ok := StepAll(ops, selector, appAddress);
      if !ok {
        Restore(saved, savedLog, savedAssets, past);
      }
    }

    /** Any run of groups, accepted or refused: no two accepted ones carry the same message. */
    method Run(groups: seq<seq<Op>>, selector: bytes, appAddress: nat -> Option<bytes>) returns (accepted: seq<bool>)
      requires Valid() && forall i :: 0 <= i < |groups| ==> ProperGroup(groups[i])
      modifies this, storage
      ensures Valid() && Progress() && |accepted| == |groups|
      ensures log == old(log) + Kept(Parts(groups), accepted, |groups|) && NoRepeat(old(log), Parts(groups), accepted)
      ensures forall i :: 0 <= i < |groups| && accepted[i] ==> AllEntered(dealings, groups[i])
    {
      hide SigAddress, CollisionFree, Bitmaps, AssetsOk, ProperGroup, WellFormed, Consumed, GroupMessages, DealingsOk,
        AllEntered, Distinct;
      ghost var parts := Parts(groups);
      accepted := [];
      for i := 0 to |groups|
        invariant Valid() && Progress() && |accepted| == i && log == old(log) + Kept(parts, accepted, i)
        invariant forall j :: 0 <= j < i && accepted[j] ==> AllEntered(dealings, groups[j])
      {
        ghost var before := dealings;
        var ok := ExecuteGroup(groups[i], selector, appAddress);
        StayEntered(before, dealings, groups, accepted);
        KeptSame(parts, accepted, accepted + [ok], i);
        accepted := accepted + [ok];
      }
      EachAcceptedOnce(old(log), parts, accepted);
    }

    /**
     * In every reachable state: a VAA that was attested or paid carries the emitter that an accepted registration
     * names for its chain, or, paid on Algorand's own chain, this bridge's address. Each chain has one such emitter.
     */
    lemma EmittersInReachableState(vaa: bytes)
      requires Valid() && (vaa in dealings.attested || vaa in dealings.redeemed)
      ensures |vaa| > 5 && ChainOffset(vaa) + 34 <= |vaa|
      ensures var off := ChainOffset(vaa); var chain, emitter := vaa[off..off + 2], vaa[off + 2..off + 34];
        || (vaa in dealings.redeemed && chain == [0, 8] && emitter == app.address)
        || exists r :: r in dealings.registered && BridgeActionOf(r) == Some(Register(chain, emitter))
      ensures var off := ChainOffset(vaa);
        vaa in dealings.redeemed && vaa[off..off + 2] == [0, 8] ==> vaa[off + 2..off + 34] == app.address
      ensures forall r, q :: r in dealings.registered && q in dealings.registered ==>
                var a, b := BridgeActionOf(r), BridgeActionOf(q);
                a.Some? && b.Some? && a.value.Register? && b.value.Register?
                && (a.value.chain == b.value.chain ==> a.value.emitter == b.value.emitter)
    {
      hide SigAddress, CollisionFree, Bitmaps, AssetsOk, WellFormed, Distinct, BridgeActionOf;
    }

    /**
     * Once a token is attested, any run of further calls, attestations of the same token among them, leaves
     * sendTransfer reading back the asset created first and exactly the token's address and chain.
     */
    method AttestedThenSent(groups: seq<seq<Op>>, selector: bytes, appAddress: nat -> Option<bytes>, t: Txn, id: nat,
                            ghost k: Token)
      returns (r: Option<(bytes, bytes)>)
      requires Valid() && (forall i :: 0 <= i < |groups| ==> ProperGroup(groups[i]))
      requires IsToken(k) && k in assets && id == assets[k]
      requires |t.args| > 1 && t.args[1] == FromInt(id, 8) && |t.accounts| > 2 && t.accounts[2] == AssetBlob(c, app, k)
      modifies this, storage
      ensures Valid() && k in assets && assets[k] == id
      ensures r == Some((k.1, FromInt(k.0, 2)))
    {
      hide SigAddress, CollisionFree, Bitmaps, ProperGroup;
      assert TokenOk(c, app, storage.local, assets, k);
      Reads(id, 8);
      var accepted := Run(groups, selector, appAddress);
      r := Origin(t, id, true, k);
    }
  }

  lemma EightOnly(b: bytes)
    requires |b| == 2
    ensures ToInt(b) == 8 <==> b == [0, 8]
  {
    TwoBytes(8);
    Reads(8, 2);
    Fits(b, 2);
  }

  /** The id in the last eight bytes of a padded native address. */
  lemma NativeId(id: bytes)
    requires |id| <= 8
    ensures ToInt(Pad32(id)[24..32]) == ToInt(id)
  {
    hide ToInt;
    var n := 8 - |id|;
    var low, padded := Pad32(id)[24..32], Zeros(n) + id;
    assert |low| == |padded| && forall i :: 0 <= i < 8 ==> low[i] == padded[i];
    assert low == padded;
    ToIntPadded(n, id);
  }
}
