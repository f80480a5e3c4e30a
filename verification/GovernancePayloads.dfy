/** Governance payloads as their producers write them, and what the two contracts make of them. */
module GovernancePayloads {
  import opened Bytes
  import opened Guardians
  import opened LocalBlob
  import opened Replay
  import opened TokenBridge
  import opened Transactions
  import opened Vaa
  import opened WormholeCore

  /** Who may govern: chain 1, address 4. */
  predicate FromGovernance(v: VAA)
  {
    v.emitterChain == 1 && v.emitterAddress == Zeros(31) + [4]
  }

  /** A character string as bytes. */
  function Ascii(s: string): bytes
  {
    seq(|s|, i requires 0 <= i < |s| => if s[i] < 256 as char then s[i] as int else 0)
  }

  // ---- The core contract ----

  /** "Core", left padded to 32 bytes, action, and target chain. */
  function CoreHeader(action: byte, chain: bytes): bytes
  {
    Zeros(28) + Ascii("Core") + [action] + chain
  }

  /** Go's contract upgrade: the new contract is a 32-byte word; for Algorand it is a program hash. */
  method SerializeUpgrade(chain: u16, newContract: Bytes32) returns (buf: bytes)
    ensures buf == CoreHeader(1, FromInt(chain, 2)) + newContract
  {
    CoreSpelled();
    buf := CORE_MODULE;
    buf := buf + [1];
    buf := buf + FromInt(chain, 2);
    buf := buf + newContract;
  }

  lemma CoreSpelled()
    ensures CORE_MODULE == Zeros(28) + Ascii("Core") && |CORE_MODULE| == 32
  {
    assert Ascii("Core") == [67, 111, 114, 101];
  }

  function FeePayload(chain: bytes, fee: u64): bytes
  {
    CoreHeader(3, chain) + Zeros(24) + FromInt(fee, 8)
  }

  function PayoutPayload(chain: bytes, amount: u64, destination: Bytes32): bytes
  {
    CoreHeader(4, chain) + Zeros(24) + FromInt(amount, 8) + destination
  }

  /** The action of a payload, by its own offsets. */
  function PayloadAction(p: bytes): Option<Action>
  {
    if |p| < 35 || p[..32] != Zeros(28) + [67, 111, 114, 101] then None
    else
      var here := p[33..35] == [0, 8];
      match p[32]
      case 1 => if here && |p| >= 67 then Some(Upgrade(p[35..67])) else None
      case 2 =>
        if (here || p[33..35] == [0, 0]) && |p| >= 40 && p[39] > 0 && |p| >= 40 + 20 * (p[39] as int)
        then Some(NewSet(ToInt(p[35..39]), p[39], p[39..40 + 20 * (p[39] as int)])) else None
      case 3 => if here && |p| >= 67 then Some(SetFee(ToInt(p[59..67]))) else None
      case 4 => if here && |p| >= 99 then Some(WormholeCore.Transfer(ToInt(p[59..67]), p[67..99])) else None
      case _ => None
  }

  /** The contract acts on exactly the payloads of the governance emitter, read at the payload's own offsets. */
  lemma ActionExactly(v: VAA)
    requires |v.signatures| <= 255
    ensures ActionOf(Encode(v)) == if FromGovernance(v) then PayloadAction(v.payload) else None
  {
    hide Encode, Zeros, ToInt;
    var d, p := Encode(v), v.payload;
    EmitterAt(v);
    var off := ChainOffset(d);
    ChainOne(v.emitterChain);
    assert CORE_MODULE == Zeros(28) + [67, 111, 114, 101] && GOVERNANCE_EMITTER == Zeros(31) + [4];
    if |p| >= 35 {
      PayloadAt(v, 0, 32);
      PayloadAt(v, 32, 33);
      PayloadAt(v, 33, 35);
      assert d[off + 75] == d[off + 75..off + 76][0] == p[32..33][0];
      FieldsAt(v, d, off);
    }
  }

  lemma ChainOne(chain: u16)
    ensures FromInt(chain, 2) == [0, 1] <==> chain == 1
  {
    TwoBytes(1);
    Reads(chain, 2);
    Reads(1, 2);
  }

  /** The fields behind the header. */
  lemma FieldsAt(v: VAA, d: bytes, off: nat)
    requires |v.signatures| <= 255 && d == Encode(v) && off == ChainOffset(d) && |v.payload| >= 35
    ensures off + 43 + |v.payload| == |d|
    ensures |v.payload| >= 67 ==> d[off + 78..off + 110] == v.payload[35..67]
    ensures |v.payload| >= 67 ==> d[off + 102..off + 110] == v.payload[59..67]
    ensures |v.payload| >= 99 ==> d[off + 110..off + 142] == v.payload[67..99]
    ensures |v.payload| >= 40 ==> d[off + 78..off + 82] == v.payload[35..39] && d[off + 82] == v.payload[39]
    ensures |v.payload| >= 40 && |v.payload| >= 40 + 20 * (v.payload[39] as int) ==>
              var end := 40 + 20 * (v.payload[39] as int); d[off + 82..off + 43 + end] == v.payload[39..end]
  {
    hide Encode;
    var p := v.payload;
    PayloadAt(v, 0, 0);
    if |p| >= 67 {
      PayloadAt(v, 35, 67);
      PayloadAt(v, 59, 67);
    }
    if |p| >= 99 {
      PayloadAt(v, 67, 99);
    }
    if |p| >= 40 {
      PayloadAt(v, 35, 39);
      PayloadAt(v, 39, 40);
      assert d[off + 82] == d[off + 82..off + 83][0] == p[39..40][0];
      if |p| >= 40 + 20 * (p[39] as int) {
        PayloadAt(v, 39, 40 + 20 * (p[39] as int));
      }
    }
  }

  /** Each payload is read back as what was put in, for Algorand and for no other chain. */
  lemma FeeReadBack(chain: u16, fee: u64)
    ensures PayloadAction(FeePayload(FromInt(chain, 2), fee)) == if chain == 8 then Some(SetFee(fee)) else None
  {
    hide ToInt, FromInt;
    CoreSpelled();
    ChainEight(chain);
    Reads(fee, 8);
    var p := FeePayload(FromInt(chain, 2), fee);
    assert p[..32] == Zeros(28) + Ascii("Core") && p[32] == 3 && p[33..35] == FromInt(chain, 2);
    assert p[59..67] == FromInt(fee, 8);
  }

  lemma PayoutReadBack(chain: u16, amount: u64, destination: Bytes32)
    ensures PayloadAction(PayoutPayload(FromInt(chain, 2), amount, destination)) ==
            if chain == 8 then Some(WormholeCore.Transfer(amount, destination)) else None
  {
    hide ToInt, FromInt;
    CoreSpelled();
    ChainEight(chain);
    Reads(amount, 8);
    var p := PayoutPayload(FromInt(chain, 2), amount, destination);
    assert p[..32] == Zeros(28) + Ascii("Core") && p[32] == 4 && p[33..35] == FromInt(chain, 2);
    assert p[59..67] == FromInt(amount, 8) && p[67..99] == destination;
  }

  lemma UpgradeReadBack(chain: u16, hash: Bytes32)
    ensures PayloadAction(CoreHeader(1, FromInt(chain, 2)) + hash) == if chain == 8 then Some(Upgrade(hash)) else None
  {
    hide ToInt, FromInt;
    CoreSpelled();
    ChainEight(chain);
    var p := CoreHeader(1, FromInt(chain, 2)) + hash;
    assert p[..32] == Zeros(28) + Ascii("Core") && p[32] == 1 && p[33..35] == FromInt(chain, 2) && p[35..67] == hash;
  }

  lemma ChainEight(chain: u16)
    ensures FromInt(chain, 2) == [0, 8] <==> chain == 8
  {
    TwoBytes(8);
    Reads(chain, 2);
    Reads(8, 2);
  }

  /**
   * What an accepted governance call does, for every VAA: it comes from the governance emitter, is meant for Algorand
   * or, for a guardian set, for all chains, and the fee, the program hash or the payment is what the payload says.
   */
  method GovernanceTakesEffect(core: Core, group: seq<Txn>, gi: nat, now: nat, ghost v: VAA, ghost chain: u16,
                               ghost amount: u64, ghost word: Bytes32)
    returns (ok: bool, payment: Option<(nat, bytes)>)
    requires core.Valid() && gi < |group| && core.PreviousApproved(group, gi, now)
    requires |group[gi].args| > 1 && group[gi].args[1] == Encode(v) && |v.signatures| <= 255
    modifies core, core.storage
    ensures core.Valid()
    ensures ok ==> FromGovernance(v) && |v.payload| >= 35 && v.payload[..32] == Zeros(28) + Ascii("Core")
    ensures ok ==> 1 <= v.payload[32] <= 4
    ensures ok && v.payload[32] != 2 ==> v.payload[33..35] == [0, 8]
    ensures ok && v.payload[32] == 2 ==> v.payload[33..35] == [0, 8] || v.payload[33..35] == [0, 0]
    ensures ok && v.payload == FeePayload(FromInt(chain, 2), amount) ==>
      chain == 8 && core.messageFee == amount && payment == None
    ensures ok && v.payload == CoreHeader(1, FromInt(chain, 2)) + word ==>
      chain == 8 && core.upgradeHash == word && payment == None
    ensures ok && v.payload == PayoutPayload(FromInt(chain, 2), amount, word) ==>
      chain == 8 && payment == Some((amount as nat, word))
    ensures payment.Some? ==> ok && v.payload[32] == 4
  {
    hide BooksOk, Encode, ActionOf, Framed, FromInt, ToInt, CoreHeader;
    ActionExactly(v);
    CoreSpelled();
    FeeReadBack(chain, amount);
    UpgradeReadBack(chain, word);
    PayoutReadBack(chain, amount, word);
    ok, payment := core.Governance(group, gi, now);
  }

  // ---- The token bridge ----

  /** "TokenBridge", left padded to 32 bytes, action, and target chain. */
  function BridgeHeader(action: byte, chain: bytes): bytes
  {
    Zeros(21) + Ascii("TokenBridge") + [action] + chain
  }

  /** Go's left padding and header for bridge governance. */
  method SerializeBridgeGovernance(action: byte, chain: u16, payload: bytes) returns (buf: bytes)
    ensures buf == BridgeHeader(action, FromInt(chain, 2)) + payload
  {
    var name := Ascii("TokenBridge");
    buf := [];
    for i := 0 to 32 - |name|
      invariant buf == Zeros(i)
    {
      buf := buf + [0];
    }
    buf := buf + name;
    buf := buf + [action];
    buf := buf + FromInt(chain, 2);
    buf := buf + payload;
  }

  /** Go's chain registration, for all chains. */
  method SerializeRegisterChain(chain: u16, emitter: Bytes32) returns (buf: bytes)
    ensures buf == BridgeHeader(1, FromInt(0, 2)) + FromInt(chain, 2) + emitter
  {
    buf := SerializeBridgeGovernance(1, 0, FromInt(chain, 2) + emitter);
    assert buf == BridgeHeader(1, FromInt(0, 2)) + FromInt(chain, 2) + emitter;
  }

  lemma BridgeSpelled()
    ensures BRIDGE_MODULE == Zeros(21) + Ascii("TokenBridge") && |BRIDGE_MODULE| == 32
  {
    assert Ascii("TokenBridge") == [0x54, 0x6f, 0x6b, 0x65, 0x6e, 0x42, 0x72, 0x69, 0x64, 0x67, 0x65];
  }

  /** The bridge's action of a payload, by its own offsets. */
  function BridgePayloadAction(p: bytes): Option<BridgeAction>
  {
    if |p| < 35 || p[..32] != Zeros(21) + Ascii("TokenBridge") then None
    else if p[32] == 1 && (p[33..35] == [0, 0] || p[33..35] == [0, 8]) && |p| >= 69
    then Some(Register(p[35..37], p[37..69]))
    else if p[32] == 2 && p[33..35] == [0, 8] && |p| >= 67 then Some(ApproveUpgrade(p[35..67]))
    else None
  }

  lemma BridgeActionExactly(v: VAA)
    requires |v.signatures| <= 255
    ensures BridgeActionOf(Encode(v)) == if FromGovernance(v) then BridgePayloadAction(v.payload) else None
  {
    hide Encode, Zeros, ToInt, Ascii;
    var d, p := Encode(v), v.payload;
    EmitterAt(v);
    var off := ChainOffset(d);
    ChainOne(v.emitterChain);
    BridgeSpelled();
    assert GOVERNANCE_EMITTER == Zeros(31) + [4];
    if |p| >= 35 {
      PayloadAt(v, 0, 32);
      PayloadAt(v, 32, 33);
      PayloadAt(v, 33, 35);
      assert d[off + 75] == d[off + 75..off + 76][0] == p[32..33][0];
      SmallTargets(p[33..35]);
      if |p| >= 67 { PayloadAt(v, 35, 67); }
      if |p| >= 69 {
        PayloadAt(v, 35, 37);
        PayloadAt(v, 37, 69);
      }
    }
  }

  lemma SmallTargets(b: bytes)
    requires |b| == 2
    ensures (ToInt(b) == 0 <==> b == [0, 0]) && (ToInt(b) == 8 <==> b == [0, 8])
  {
    TwoBytes(0);
    TwoBytes(8);
    Reads(0, 2);
    Reads(8, 2);
    Fits(b, 2);
  }

  /** What Go registers is what the bridge records. */
  lemma RegistrationReadBack(chain: u16, emitter: Bytes32)
    ensures BridgePayloadAction(BridgeHeader(1, FromInt(0, 2)) + FromInt(chain, 2) + emitter) ==
            Some(Register(FromInt(chain, 2), emitter))
  {
    hide FromInt;
    BridgeSpelled();
    TwoBytes(0);
    var p := BridgeHeader(1, FromInt(0, 2)) + FromInt(chain, 2) + emitter;
    assert p[..32] == Zeros(21) + Ascii("TokenBridge") && p[32] == 1 && p[33..35] == FromInt(0, 2);
    assert p[35..37] == FromInt(chain, 2) && p[37..69] == emitter;
  }

  lemma BridgeUpgradeReadBack(chain: u16, hash: Bytes32)
    ensures BridgePayloadAction(BridgeHeader(2, FromInt(chain, 2)) + hash) ==
            if chain == 8 then Some(ApproveUpgrade(hash)) else None
  {
    hide FromInt;
    BridgeSpelled();
    ChainEight(chain);
    var p := BridgeHeader(2, FromInt(chain, 2)) + hash;
    assert p[..32] == Zeros(21) + Ascii("TokenBridge") && p[32] == 2 && p[33..35] == FromInt(chain, 2);
    assert p[35..67] == hash;
  }

  // ---- Names on the wire ----

  /** Methods, storage slots and tags of the core contract. */
  lemma CoreNames()
    ensures VERIFY_SIGS == Ascii("verifySigs") && VERIFY_VAA == Ascii("verifyVAA") && NOP == Ascii("nop")
    ensures INIT == Ascii("init") && GOVERNANCE == Ascii("governance") && PUBLISH_MESSAGE == Ascii("publishMessage")
    ensures GUARDIAN == Ascii("guardian") && DUPLICATE == Ascii("duplicate")
  {
  }

  /** Methods, storage slots and tags of the token bridge. */
  lemma BridgeNames()
    ensures RECEIVE_ATTEST == Ascii("receiveAttest") && SEND_TRANSFER == Ascii("sendTransfer")
    ensures COMPLETE_TRANSFER == Ascii("completeTransfer") && NATIVE == Ascii("native") && ASSET == Ascii("asset")
  {
  }
}
