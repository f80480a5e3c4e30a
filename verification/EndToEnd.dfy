/** A guardian set from Go to Algorand: serialized, wrapped, marshalled, installed and read back. */
module EndToEnd {
  import opened Bytes
  import opened Guardians
  import opened GuardianSets
  import opened LocalBlob
  import opened Replay
  import opened TmplSig
  import opened Transactions
  import opened Vaa
  import opened VaaVerify
  import opened WormholeCore
  import Client
  import Quorum
  import VerifyVaa

  /** A governance VAA that carries the update; guardians may have added signatures. */
  ghost predicate Carries(v: VAA, u: SetUpdate)
  {
    && |v.signatures| <= 255 && 1 <= |u.keys| <= 255
    && v.emitterChain == GOVERNANCE_CHAIN && v.emitterAddress == GOVERNANCE_EMITTER
    && v.payload == UpdatePayload(u)
  }

  /** As many keys fit into a blob. */
  const MAX_KEYS_STORED: nat := 95

  /** How the update is stored: the count and the keys in order. */
  function SetBytes(u: SetUpdate): bytes
    requires |u.keys| < 256
  {
    [|u.keys|] + KeyBytes(u.keys)
  }

  /** The stored bytes determine the ordered keys. */
  lemma SetBytesKeys(u: SetUpdate, keys: seq<Bytes20>)
    requires 1 <= |u.keys| <= MAX_KEYS_STORED && |keys| == |u.keys|
    ensures KeyBlob(SetBytes(u)) && SetBytes(u)[0] == |u.keys| && SetBytes(u)[1..] == KeyBytes(u.keys)
    ensures KeyBytes(keys) == SetBytes(u)[1..] <==> keys == u.keys
  {
    hide KeyBytes;
    if KeyBytes(keys) == KeyBytes(u.keys) {
      KeyBytesInjective(keys, u.keys);
    }
  }

  lemma HeaderParses(v: VAA, u: SetUpdate)
    requires Carries(v, u)
    ensures IsGovernance(Encode(v))
  {
    hide Encode, UpdatePayload;
    EmitterAt(v);
    PayloadFields(u);
    PayloadAt(v, 0, 32);
    TwoBytes(1);
  }

  /** The contract reads back exactly the update that Go serialized. */
  lemma UpdateParses(v: VAA, u: SetUpdate)
    requires Carries(v, u)
    ensures ActionOf(Encode(v)) == Some(NewSet(u.newIndex, |u.keys|, SetBytes(u)))
  {
    hide Encode, UpdatePayload;
    HeaderParses(v, u);
    var d := Encode(v);
    var off := ChainOffset(d);
    PayloadFields(u);
    PayloadAt(v, 32, 33);
    PayloadAt(v, 33, 35);
    PayloadAt(v, 35, 39);
    PayloadAt(v, 39, 40);
    PayloadAt(v, 39, 40 + 20 * |u.keys|);
    assert d[off + 75] == d[off + 75..off + 76][0] == 2;
    assert d[off + 82] == d[off + 82..off + 83][0] == |u.keys|;
    Reads(u.newIndex, 4);
    TwoBytes(0);
    assert v.payload[39..40 + 20 * |u.keys|] == SetBytes(u);
    assert ParseSet(d, ALL_CHAINS) == Some(NewSet(u.newIndex, |u.keys|, SetBytes(u)));
  }

  /**
   * An accepted set may still be used: a superseded one until its end, the current one always, unless it has so many
   * keys that they run into the expiry field and are read as a date.
   */
  ghost predicate Live(core: Core, i: nat, now: nat)
    requires i in core.sets && KeyBlob(core.sets[i])
    reads core
  {
    if i in core.ends then now < core.ends[i]
    else var e := Expiry(Image(core.sets[i], None)); e == 0 || now < e
  }

  /** With at most 49 keys the current set is always live. */
  lemma SmallSetsLive(core: Core, now: nat)
    requires core.Valid() && core.currentSet in core.sets && KeyBlob(core.sets[core.currentSet])
    requires |core.sets[core.currentSet]| <= EXPIRY
    ensures Live(core, core.currentSet, now)
  {
    hide BooksOk, Image, Expiry;
    core.SetBounds(core.currentSet);
    core.SetsInReachableState(core.currentSet);
    FreshExpiry(core.sets[core.currentSet]);
  }

  /** In terms of the accepted sets: which set a transaction may be verified against, and when. */
  ghost predicate Loadable(core: Core, t: Txn, now: nat)
    requires core.Valid()
    reads core, core.storage
  {
    && |t.args| > 1 && |t.accounts| > 2 && |t.args[1]| >= 6
    && var vaa, i := t.args[1], ToInt(t.args[1][1..5]);
    && var m := VerifyVaa.NumSigs(vaa);
    && t.accounts[2] == SetAddress(core.c, core.app, i) && i in core.sets && KeyBlob(core.sets[i]) && Live(core, i, now)
    && 6 + 66 * m <= |vaa| && m <= core.sets[i][0] && 3 * m > 2 * core.sets[i][0]
  }

  /**
   * In every reachable state verifyVAA loads exactly the accepted sets that are live, with the accepted count; the
   * keys are the accepted ones while the set is current, and for good if there are at most 49.
   */
  lemma LoadsAccepted(core: Core, t: Txn, now: nat)
    requires core.Valid()
    ensures VerifyVaa.SetOk(core.View(now), t) <==> Loadable(core, t, now)
    ensures Loadable(core, t, now) ==>
              && var i := ToInt(t.args[1][1..5]);
              && var e, b := VerifyVaa.Expected(core.View(now), t), core.sets[i];
              && e.count == b[0] && (i == core.currentSet || |b| <= EXPIRY ==> e.keys == b[1..])
  {
    hide SigAddress, ToInt, BooksOk, Image, KeyBlob;
    if |t.args| > 1 && |t.args[1]| >= 6 {
      var i := ToInt(t.args[1][1..5]);
      var a := SetAddress(core.c, core.app, i);
      core.SetBounds(i);
      if a in core.storage.local {
        core.SetsInReachableState(i);
        if i in core.sets {
          StoredSet(core.sets[i], End(core.Sets(), i));
        }
      }
    }
  }

  /** What verifyVAA reads in the blob of an accepted set. */
  lemma StoredSet(b: bytes, end: Option<nat>)
    requires KeyBlob(b)
    ensures var f, n := Image(b, end), b[0] as int;
      && |b| == 1 + 20 * n && b[0] > 0 && f[0] == b[0] && 1 + 20 * n < MAX_BYTES && Expiry(f) == ToInt(f[1000..1008])
      && (end == None || |b| <= EXPIRY ==> f[1..1 + 20 * n] == b[1..])
  {
    hide Image, ToInt;
    ImageHolds(b, end);
  }

  /**
   * A set on record in any reachable state, however long ago it was accepted: a VAA that names it is verified
   * against exactly the index, the count and the ordered keys of the update, as long as the set is live. Sets of more
   * than 49 keys lose eight bytes of them when they are superseded.
   */
  lemma SetReadBack(core: Core, u: SetUpdate, t: Txn, now: nat)
    requires core.Valid() && 1 <= |u.keys| <= MAX_KEYS_STORED
    requires (u.newIndex as nat) in core.sets && core.sets[u.newIndex] == SetBytes(u) && KeyBlob(SetBytes(u))
    requires |t.args| > 1 && |t.args[1]| >= 6 && ToInt(t.args[1][1..5]) == u.newIndex
    ensures VerifyVaa.SetOk(core.View(now), t) <==>
      && var vaa, m := t.args[1], VerifyVaa.NumSigs(t.args[1]);
      && |t.accounts| > 2 && t.accounts[2] == SetAddress(core.c, core.app, u.newIndex)
      && 6 + 66 * m <= |vaa| && m <= |u.keys| && 3 * m > 2 * |u.keys| && Live(core, u.newIndex, now)
    ensures VerifyVaa.SetOk(core.View(now), t) && (u.newIndex == core.currentSet || |u.keys| <= MAX_SET) ==>
      && var e := VerifyVaa.Expected(core.View(now), t);
      && e.count == |u.keys| && forall keys :: |keys| == e.count && KeyBytes(keys) == e.keys <==> keys == u.keys
  {
    hide SigAddress, ToInt, VerifyVaa.SetOk, SetBytes, KeyBytes, BooksOk, Live;
    LoadsAccepted(core, t, now);
    SetBytesKeys(u, u.keys);
    forall keys: seq<Bytes20> | |keys| == |u.keys|
      ensures KeyBytes(keys) == core.sets[u.newIndex][1..] <==> keys == u.keys
    {
      SetBytesKeys(u, keys);
    }
  }

  /** The whole path at boot, for every list of keys that Go can count; up to 95 of them fit. */
  method Boot(core: Core, u: SetUpdate, timestamp: Time, nonce: u32, sequence: u64, setIndex: u32, now: nat)
    returns (ok: bool)
    requires core.Valid() && !core.booted && 1 <= |u.keys| <= 255
    modifies core, core.storage
    ensures core.Valid()
    ensures ok ==> core.booted && core.currentSet == u.newIndex
    ensures ok ==> core.Sets() == Record(u.newIndex, u.newIndex + 1, map[u.newIndex := SetBytes(u)], map[])
    ensures ok <==> SetAddress(core.c, core.app, u.newIndex) in old(core.storage.local)
                    && BootBitmap(core, sequence) in old(core.storage.local)
                    && GovernanceMessage(sequence) !in old(core.log) && |u.keys| <= MAX_KEYS_STORED
  {
    hide BooksOk, Framed, UpdatePayload, Encode, KeyBytes, KeyBlob;
    var payload := Serialize(u);
    var v := CreateGovernanceVAA(timestamp, nonce, sequence, setIndex, payload);
    var vaa := Marshal(v);
    UpdateParses(v, u);
    BootMessage(v, u);
    var newSet := SetAddress(core.c, core.app, u.newIndex);
    var bitmap := SigAddress(core.c, core.app, sequence / MAX_BITS, FromInt(GOVERNANCE_CHAIN, 2) + GOVERNANCE_EMITTER);
    var t := AppCall(core.creator, 0, core.app.id, [INIT, vaa, core.program], [core.creator, bitmap, newSet, newSet]);
    var payment;
    ok, payment := core.Init(t, now);
  }

  ghost function GovernanceMessage(sequence: u64): Message
  {
    (FromInt(GOVERNANCE_CHAIN, 2) + GOVERNANCE_EMITTER, sequence)
  }

  ghost function BootBitmap(core: Core, sequence: u64): bytes
    requires core.Sane()
  {
    BitmapOf(core.c, core.app, GovernanceMessage(sequence))
  }

  lemma BootMessage(v: VAA, u: SetUpdate)
    requires Carries(v, u)
    ensures HasMessage(Encode(v)) && MessageOf(Encode(v)) == GovernanceMessage(v.sequence)
    ensures Encode(v)[0] == v.version
    ensures FromInt(v.emitterChain, 2) + v.emitterAddress == GovernanceMessage(v.sequence).0
  {
    MessageEncoded(v);
  }

  // ---- After boot ----

  /** The client of the core contract, with its own account, a copy of the current keys, and the accounts it found. */
  ghost predicate ClientReady(core: Core, k: Client.Config, v: VAA, u: SetUpdate, current: SetUpdate, block: nat)
    requires core.Sane()
    reads core
  {
    && k.c == core.c && k.coreId == core.app.id && k.programHash == core.program
    && |k.sender| == 32 && k.sender != core.program
    && k.accounts == [SigAddress(core.c, core.app, block, GovernanceMessage(v.sequence).0),
                      SetAddress(core.c, core.app, v.guardianSetIndex), SetAddress(core.c, core.app, u.newIndex)]
    && 1 + 20 * |current.keys| <= |k.keys| && k.keys[1..1 + 20 * |current.keys|] == KeyBytes(current.keys)
  }

  /** The VAA carries the update and Go verifies it against the current set. */
  ghost predicate UpdateSigned(core: Core, v: VAA, u: SetUpdate, current: SetUpdate)
    requires core.Sane()
    reads core
  {
    && Carries(v, u) && v.version == 1 && v.guardianSetIndex == current.newIndex == core.currentSet
    && 1 <= |current.keys| <= MAX_KEYS_STORED && core.first < core.next && core.booted
    && core.currentSet in core.sets && core.sets[core.currentSet] == SetBytes(current) && KeyBlob(SetBytes(current))
    && Quorum.Verified(core.c, v, current.keys) && Client.LowIndices(v)
  }

  lemma CurrentSetPrepared(core: Core, k: Client.Config, v: VAA, u: SetUpdate, current: SetUpdate, block: nat, now: nat)
    requires core.Valid() && UpdateSigned(core, v, u, current) && ClientReady(core, k, v, u, current, block)
    requires now == 0 || Live(core, core.currentSet, now)
    ensures Client.Prepared(core.View(now), k, v, current.keys)
  {
    hide SigAddress, ToInt, KeyBytes, SetBytes, Carries, Quorum.Verified, Client.LowIndices, Image, BooksOk;
    core.SetBounds(core.currentSet);
    core.SetsInReachableState(core.currentSet);
    SetBytesKeys(current, current.keys);
    StoredSet(SetBytes(current), None);
    assert End(core.Sets(), core.currentSet) == None;
  }

  function GovernanceCall(k: Client.Config, fee: nat, vaa: bytes): Txn
  {
    Client.Call(k, k.sender, fee, [GOVERNANCE, vaa])
  }

  /** What submitVAA sends after the verifyVAA call of a core governance VAA. */
  function GovernanceCalls(k: Client.Config, fee: nat, vaa: bytes): seq<Txn>
  {
    [GovernanceCall(k, fee, vaa), AppCall(k.sender, fee, k.coreId, [NOP, FromInt(5, 8)], [k.sender])]
  }

  /** The client's group for the update, with the governance call behind it. */
  ghost predicate UpdateGroup(k: Client.Config, v: VAA, fee: nat, txns: seq<Txn>, group: seq<Txn>)
  {
    && |Encode(v)| > 5 && Client.GroupIs(k, Encode(v), fee, txns)
    && group == txns + GovernanceCalls(k, fee, Encode(v))
  }

  /** The shape of the group: signature transactions, then verifyVAA, then governance, then a nop. */
  lemma UpdateShape(core: Core, k: Client.Config, v: VAA, fee: nat, txns: seq<Txn>, group: seq<Txn>)
    requires k.coreId == core.app.id && UpdateGroup(k, v, fee, txns, group)
    ensures |group| == |txns| + 2 && |txns| >= 1 && OneAction(core.app.id, group, |txns|)
    ensures group[|txns|] == GovernanceCall(k, fee, Encode(v))
    ensures group[|txns| - 1] == Client.Call(k, k.sender, fee, [VERIFY_VAA, Encode(v)])
    ensures forall i :: 0 <= i < |txns| - 1 ==>
              Routed(core.app.id, group[i], VERIFY_SIGS) && group[i].sender == k.programHash
    ensures group[|txns| + 1].sender == k.sender && Idle(core.app.id, group[|txns| + 1])
  {
    hide Encode, Client.Piece, Client.KeysKnown, Client.Blocks, FromInt;
    forall i | 0 <= i < |txns| - 1
      ensures Routed(core.app.id, group[i], VERIFY_SIGS) && group[i].sender == k.programHash
    {
      assert group[i] == txns[i] && Client.BlockIs(k, Encode(v), i, txns[i]);
    }
  }

  /**
   * The signature transactions of the group pass the program, and verifyVAA accepts it exactly while the set is live.
   */
  lemma UpdateVerified(core: Core, k: Client.Config, v: VAA, u: SetUpdate, current: SetUpdate, block: nat, fee: nat,
                       txns: seq<Txn>, group: seq<Txn>, now: nat)
    requires core.Valid() && UpdateSigned(core, v, u, current) && ClientReady(core, k, v, u, current, block)
    requires UpdateGroup(k, v, fee, txns, group)
    ensures |group| == |txns| + 2 && |txns| >= 1 && ProgramSigned(core.c, core.program, group)
    ensures VerifyVaa.Accepted(core.View(now), group, |txns| - 1) <==> Live(core, core.currentSet, now)
  {
    hide SigAddress, Encode, Client.Prepared, ProgramOk, BooksOk, SetBytes, Live, Quorum.Verified, Carries, ToInt,
      VerifyVaa.RunOk, VerifyVaa.SetOk, KeyBytes, KeyBlob;
    var rest := GovernanceCalls(k, fee, Encode(v));
    UpdateShape(core, k, v, fee, txns, group);
    CurrentSetPrepared(core, k, v, u, current, block, 0);
    Client.ClientAgrees(core.View(0), k, v, current.keys, fee, txns, rest);
    forall i | 0 <= i < |group| && group[i].sender == core.program
      ensures ProgramOk(core.c, group[i])
    {
      assert i < |txns| - 1 && group[i] == txns[i];
    }
    if Live(core, core.currentSet, now) {
      CurrentSetPrepared(core, k, v, u, current, block, now);
      Client.ClientAgrees(core.View(now), k, v, current.keys, fee, txns, rest);
    }
    if VerifyVaa.SetOk(core.View(now), group[|txns| - 1]) {
      NamesCurrent(core, k, v, fee);
      LoadsAccepted(core, group[|txns| - 1], now);
    }
  }

  lemma NamesCurrent(core: Core, k: Client.Config, v: VAA, fee: nat)
    ensures var t := Client.Call(k, k.sender, fee, [VERIFY_VAA, Encode(v)]);
      |t.args[1]| >= 6 && ToInt(t.args[1][1..5]) == v.guardianSetIndex
  {
    EncodeLayout(v);
    Reads(v.guardianSetIndex, 4);
  }

  /** When the group of an update is accepted, in terms of what the client and the ledger know. */
  ghost predicate UpdateFits(core: Core, v: VAA, u: SetUpdate, block: nat, now: nat)
    requires core.Sane() && core.currentSet in core.sets && KeyBlob(core.sets[core.currentSet])
    reads core, core.storage
  {
    && u.newIndex == core.currentSet + 1 && |u.keys| <= MAX_KEYS_STORED && now + DAY < U64
    && Live(core, core.currentSet, now)
    && SetAddress(core.c, core.app, u.newIndex) in core.storage.local
    && block == v.sequence / MAX_BITS && BootBitmap(core, v.sequence) in core.storage.local
    && GovernanceMessage(v.sequence) !in core.log
  }

  lemma UpdateAllowed(core: Core, k: Client.Config, v: VAA, u: SetUpdate, current: SetUpdate, block: nat, fee: nat,
                      now: nat)
    requires core.Valid() && UpdateSigned(core, v, u, current) && ClientReady(core, k, v, u, current, block)
    ensures var t := GovernanceCall(k, fee, Encode(v));
      AllowedIn(core.c, core.app, core.currentSet, core.storage.local, false, t, now) <==>
        && u.newIndex == core.currentSet + 1 && |u.keys| <= MAX_KEYS_STORED && now + DAY < U64
        && SetAddress(core.c, core.app, u.newIndex) in core.storage.local
  {
    hide SigAddress, Encode, BooksOk, ActionOf, KeyBytes, ToInt, Quorum.Verified;
    UpdateParses(v, u);
    NamesCurrent(core, k, v, fee);
  }

  lemma UpdateFresh(core: Core, k: Client.Config, v: VAA, u: SetUpdate, current: SetUpdate, block: nat, fee: nat)
    requires core.Valid() && UpdateSigned(core, v, u, current) && ClientReady(core, k, v, u, current, block)
    ensures Fresh(core.c, core.app, core.storage.local, Consumed(core.log), Encode(v), k.accounts[0]) <==>
      && block == v.sequence / MAX_BITS && BootBitmap(core, v.sequence) in core.storage.local
      && GovernanceMessage(v.sequence) !in core.log
  {
    hide SigAddress, Encode, BooksOk, Quorum.Verified, SetBytes, KeyBytes;
    BootMessage(v, u);
    SlotsDoNotAlias(core.c, core.app, block, GovernanceMessage(v.sequence).0, v.sequence / MAX_BITS,
                    GovernanceMessage(v.sequence).0);
  }

  lemma UpdateAccepted(core: Core, k: Client.Config, v: VAA, u: SetUpdate, current: SetUpdate, block: nat, fee: nat,
                       txns: seq<Txn>, group: seq<Txn>, now: nat)
    requires core.Valid() && UpdateSigned(core, v, u, current) && ClientReady(core, k, v, u, current, block)
    requires UpdateGroup(k, v, fee, txns, group)
    ensures |group| == |txns| + 2
    ensures ActionAccepted(core.c, core.app, core.Now(), group, |txns|, now) <==> UpdateFits(core, v, u, block, now)
  {
    hide SigAddress, Encode, BooksOk, VerifyVaa.Accepted, AllowedIn, Fresh, Live, SetBytes, Quorum.Verified, Carries,
      KeyBytes, KeyBlob, GovernanceMessage, BootBitmap, OneAction;
    UpdateShape(core, k, v, fee, txns, group);
    UpdateVerified(core, k, v, u, current, block, fee, txns, group, now);
    UpdateAllowed(core, k, v, u, current, block, fee, now);
    UpdateFresh(core, k, v, u, current, block, fee);
    var g, s := |txns|, core.Now();
    assert FollowsVerify(core.app.id, group, g);
    assert forall i :: 0 <= i < g - 1 ==> QuietIn(core.c, core.app, s, group, i, now);
    assert QuietIn(core.c, core.app, s, group, g - 1, now) <==> Live(core, core.currentSet, now);
  }

  /** What the accepted governance call of an update leaves. */
  lemma UpdateEffect(k: Client.Config, v: VAA, u: SetUpdate, fee: nat, now: nat, before: History, g: Globals,
                     after: History)
    requires Carries(v, u) && 0 < before.record.next
    requires GovernedIn(GovernanceCall(k, fee, Encode(v)), now, before, g, after)
    ensures g.currentSet == u.newIndex && after.log == before.log + [GovernanceMessage(v.sequence)]
    ensures after.record == Superseded(before.record, SetBytes(u), now + DAY)
  {
    hide Encode, ActionOf, SetBytes, GovernanceMessage;
    UpdateParses(v, u);
    BootMessage(v, u);
  }

  /** The client's side: the storage accounts, the signature transactions, verifyVAA, governance and a nop. */
  method PrepareUpdate(core: Core, sender: bytes, keys: bytes, round: real -> real, v: VAA, u: SetUpdate,
                       ghost current: SetUpdate, fee: nat)
    returns (k: Client.Config, group: seq<Txn>, ghost txns: seq<Txn>, ghost block: nat)
    requires core.Valid() && UpdateSigned(core, v, u, current) && Rounding(round)
    requires |sender| == 32 && sender != core.program
    requires 1 + 20 * |current.keys| <= |keys| && keys[1..1 + 20 * |current.keys|] == KeyBytes(current.keys)
    ensures ClientReady(core, k, v, u, current, block) && UpdateGroup(k, v, fee, txns, group)
    ensures v.sequence < EXACT ==> block == v.sequence / MAX_BITS
  {
    hide SigAddress, Encode, BooksOk, Client.GroupIs, SetBytes, Quorum.Verified, Rounding, KeyBytes, KeyBlob,
      GovernanceMessage, Client.LowIndices, FromInt;
    var vaa := Marshal(v);
    EncodeLayout(v);
    BootMessage(v, u);
    var blockOf := BlockOf(round, v.sequence);
    block := blockOf;
    var bitmap := ClientAddress(core.c, core.app, blockOf, FromInt(v.emitterChain, 2) + v.emitterAddress);
    var guardians := ClientAddress(core.c, core.app, v.guardianSetIndex, GUARDIAN);
    var newGuardians := ClientAddress(core.c, core.app, u.newIndex, GUARDIAN);
    k := Client.Config(core.c, core.app.id, core.program, sender, [bitmap, guardians, newGuardians], keys);
    var sigs := Client.BuildGroup(k, vaa, fee);
    txns := sigs;
    group := sigs + GovernanceCalls(k, fee, vaa);
  }

  lemma UpdateProper(core: Core, k: Client.Config, v: VAA, u: SetUpdate, current: SetUpdate, block: nat, fee: nat,
                     txns: seq<Txn>, group: seq<Txn>)
    requires core.Valid() && UpdateSigned(core, v, u, current) && ClientReady(core, k, v, u, current, block)
    requires UpdateGroup(k, v, fee, txns, group)
    ensures core.Proper(group)
  {
    hide SigAddress, Encode, BooksOk, VerifyVaa.Accepted, Live, SetBytes, Quorum.Verified, Carries, KeyBytes, KeyBlob,
      ProgramSigned, OneAction;
    UpdateShape(core, k, v, fee, txns, group);
    UpdateVerified(core, k, v, u, current, block, fee, txns, group, 0);
    forall i | 0 <= i < |group|
      ensures |group[i].sender| == 32 && !Calls(group[i], INIT)
    {
      assert i < |txns| - 1 || i == |txns| - 1 || i == |txns| || i == |txns| + 1;
    }
  }

  /**
   * The whole path after boot, for every list of keys that Go can count: Go marshals the update, the client computes
   * the storage accounts, cuts the group and sends it, the signature transactions and verifyVAA check it against the
   * current set, and governance installs the next set. The group is accepted exactly when the index is the next one,
   * at most 95 keys are to be stored, the current set is live, the accounts are there, the client's division found
   * the right bitmap and the message is fresh.
   */
  method SubmitUpdate(core: Core, sender: bytes, keys: bytes, round: real -> real, v: VAA, u: SetUpdate,
                      ghost current: SetUpdate, fee: nat, now: nat, seedAmount: nat)
    returns (ok: bool, ghost block: nat)
    requires core.Valid() && UpdateSigned(core, v, u, current) && Rounding(round)
    requires |sender| == 32 && sender != core.program
    requires 1 + 20 * |current.keys| <= |keys| && keys[1..1 + 20 * |current.keys|] == KeyBytes(current.keys)
    modifies core, core.storage
    ensures core.Valid()
    ensures v.sequence < EXACT ==> block == v.sequence / MAX_BITS
    ensures ok <==> old(UpdateFits(core, v, u, block, now))
    ensures !ok ==> core.Unchanged()
    ensures ok ==> core.currentSet == u.newIndex && core.log == old(core.log) + [GovernanceMessage(v.sequence)]
    ensures ok ==> |u.keys| < 256 && core.Sets() == Superseded(old(core.Sets()), SetBytes(u), now + DAY)
  {
    hide SigAddress, Encode, BooksOk, SetBytes, Quorum.Verified, Rounding, KeyBytes, KeyBlob, GovernanceMessage,
      ActionAccepted, OneAction, UpdateFits, GovernedIn, Superseded, Client.LowIndices, GroupMessages, Grows;
    var k, group;
    ghost var txns;
    k, group, txns, block := PrepareUpdate(core, sender, keys, round, v, u, current, fee);
    UpdateProper(core, k, v, u, current, block, fee, txns, group);
    UpdateShape(core, k, v, fee, txns, group);
    UpdateAccepted(core, k, v, u, current, block, fee, txns, group, now);
    ok := core.ExecuteGroup(group, now, seedAmount, |txns|);
    if ok {
      UpdateEffect(k, v, u, fee, now, old(core.Past()), core.Global(), core.Past());
    }
  }

  /** The client's number of the bitmap: a truncated floating-point quotient. */
  method BlockOf(round: real -> real, sequence: u64) returns (block: nat)
    requires Rounding(round)
    ensures sequence < EXACT ==> block == sequence / MAX_BITS
  {
    if sequence < EXACT {
      IntDivExact(round, sequence, MAX_BITS);
    }
    assert sequence as real / MAX_BITS as real >= 0.0;
    block := IntDiv(round, sequence, MAX_BITS);
  }

  /** However long a run goes on, an accepted set stays what Go serialized. */
  method SurvivesRun(core: Core, u: SetUpdate, groups: seq<(seq<Txn>, nat)>, seedAmount: nat)
    returns (accepted: seq<bool>)
    requires core.Valid() && forall i :: 0 <= i < |groups| ==> core.Proper(groups[i].0)
    requires |u.keys| < 256 && (u.newIndex as nat) in core.sets && core.sets[u.newIndex] == SetBytes(u)
    modifies core, core.storage
    ensures core.Valid() && (u.newIndex as nat) in core.sets && core.sets[u.newIndex] == SetBytes(u)
  {
    hide BooksOk, SetBytes;
    accepted := core.Run(groups, seedAmount);
  }

  /** However long a run goes on, a superseded set is refused from one day after its supersession. */
  method StaysExpired(core: Core, i: nat, groups: seq<(seq<Txn>, nat)>, seedAmount: nat, t: Txn, now: nat)
    returns (accepted: seq<bool>)
    requires core.Valid() && forall k :: 0 <= k < |groups| ==> core.Proper(groups[k].0)
    requires i in core.ends && now >= core.ends[i]
    requires |t.args| > 1 && |t.args[1]| >= 6 && ToInt(t.args[1][1..5]) == i
    modifies core, core.storage
    ensures core.Valid() && !VerifyVaa.SetOk(core.View(now), t)
  {
    hide BooksOk, ToInt, VerifyVaa.SetOk;
    accepted := core.Run(groups, seedAmount);
    core.SupersededExpires(t, now);
  }
}
